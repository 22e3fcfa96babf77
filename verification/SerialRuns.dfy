/** Every step but a harmful prune keeps the invariant, so every run without one is serializable. */
module SerialRuns {
  import opened Values
  import opened Indexes
  import opened Stores
  import opened Occ
  import opened Transactions
  import opened Serializability

  // ---------- Steps that change one transaction only ----------

  /** Replacing one transaction's private state keeps the shared part of the invariant. */
  lemma LocalStep(cat: Catalog, base: Tables, s: State, t: nat, tx: Tx)
    requires Inv(cat, base, s) && t in s.txs && !s.txs[t].phase.Applying? && !tx.phase.Applying?
    requires tx.start == s.txs[t].start && TxOk(cat, base, s.commits, s.version, tx)
    requires tx.phase.Limited? ==> LimitOk(s.txs, tx.phase.limit)
    ensures Inv(cat, base, SetTx(s, t, tx))
  {
    hide LogOk, HistoryOk, Serializable, TxOk, EnginesOk, LimitsOk, LeavingOk, WriterOk, PruningSafe;
    LeavingLocal(s, t, tx);
    EnginesLocal(cat, base, s, t, tx);
    LimitsLocal(s.txs, t, tx);
  }

  lemma EnginesLocal(cat: Catalog, base: Tables, s: State, t: nat, tx: Tx)
    requires EnginesOk(cat, base, s) && WriterOk(s) && PruningSafe(s)
    requires t in s.txs && !s.txs[t].phase.Applying? && !tx.phase.Applying? && tx.start == s.txs[t].start
    ensures EnginesOk(cat, base, SetTx(s, t, tx)) && WriterOk(SetTx(s, t, tx)) && PruningSafe(SetTx(s, t, tx))
  {
    hide Serial, IsEngine;
    var s' := SetTx(s, t, tx);
    assert forall e :: Reached(s', e) == Reached(s, e);
  }

  lemma LeavingLocal(s: State, t: nat, tx: Tx)
    requires LeavingOk(s) && t in s.txs && tx.start == s.txs[t].start
    ensures LeavingOk(SetTx(s, t, tx))
  {
  }

  lemma LeavingSame(s: State, s': State)
    requires LeavingOk(s) && s'.txs == s.txs && s'.leaving == s.leaving && s'.version >= s.version
    ensures LeavingOk(s')
  {
  }

  lemma LimitsLocal(txs: map<nat, Tx>, t: nat, tx: Tx)
    requires LimitsOk(txs) && t in txs && tx.start == txs[t].start && !tx.phase.Applying?
    requires tx.phase.Limited? ==> LimitOk(txs, tx.phase.limit)
    ensures LimitsOk(txs[t := tx])
  {
  }

  lemma InvTx(cat: Catalog, base: Tables, s: State, t: nat)
    requires Inv(cat, base, s) && t in s.txs
    ensures TxOk(cat, base, s.commits, s.version, s.txs[t]) && LogOk(cat, base, s.commits) && EnginesOk(cat, base, s) && WriterOk(s)
    ensures s.txs[t].start <= s.version <= |s.commits|
  {
    hide LogOk, HistoryOk, Serializable, EnginesOk, LimitsOk, WriterOk;
  }

  lemma EngineKnown(cat: Catalog, base: Tables, s: State, e: EngineId)
    requires EnginesOk(cat, base, s) && e in s.engines
    ensures IsEngine(cat, e)
  {
    hide Serial, IsEngine;
  }

  lemma WriteKeeps(cat: Catalog, base: Tables, s: State, t: nat, table: string, k: DbKey, change: Option<Row>)
    requires Inv(cat, base, s) && Enabled(cat, s, Write(t, table, k, change))
    ensures Inv(cat, base, Next(cat, s, Write(t, table, k, change)))
  {
    var tx := s.txs[t];
    var tx' := tx.(buf := Buffered(tx.buf, table, k, change));
    LocalStep(cat, base, s, t, tx');
  }

  lemma TrackKeyKeeps(cat: Catalog, base: Tables, s: State, t: nat, space: string, k: DbKey)
    requires Inv(cat, base, s) && Enabled(cat, s, TrackKey(t, space, k))
    ensures Inv(cat, base, Next(cat, s, TrackKey(t, space, k)))
  {
    var tx := s.txs[t];
    var tx' := tx.(tracked := AddKey(tx.tracked, space, k));
    forall i | 0 <= i < |tx.seen| ensures Tracked(tx'.tracked, tx'.ranges, tx.seen[i]) {
      assert Tracked(tx.tracked, tx.ranges, tx.seen[i]);
    }
    LocalStep(cat, base, s, t, tx');
  }

  lemma TrackRangeKeeps(cat: Catalog, base: Tables, s: State, t: nat, space: string, lo: DbKey, hi: DbKey)
    requires Inv(cat, base, s) && Enabled(cat, s, TrackRange(t, space, lo, hi))
    ensures Inv(cat, base, Next(cat, s, TrackRange(t, space, lo, hi)))
  {
    var tx := s.txs[t];
    var tx' := tx.(ranges := AddRange(tx.ranges, space, lo, hi));
    forall sp, k | Scans(tx.ranges, sp, k) ensures Scans(tx'.ranges, sp, k) {
      var i :| 0 <= i < |tx.ranges[sp]| && InRange(k, tx.ranges[sp][i].0, tx.ranges[sp][i].1);
      assert tx'.ranges[sp][i] == tx.ranges[sp][i];
    }
    forall i | 0 <= i < |tx.seen| ensures Tracked(tx'.tracked, tx'.ranges, tx.seen[i]) {
      assert Tracked(tx.tracked, tx.ranges, tx.seen[i]);
    }
    LocalStep(cat, base, s, t, tx');
  }

  lemma ReadKeeps(cat: Catalog, base: Tables, s: State, t: nat, e: EngineId, sel: Selection)
    requires Inv(cat, base, s) && Enabled(cat, s, Read(t, e, sel))
    ensures Inv(cat, base, Next(cat, s, Read(t, e, sel)))
  {
    hide Inv, LogOk, EnginesOk, WriterOk, TxOk, Tracks, IsEngine, CellOk;
    InvTx(cat, base, s, t);
    var tx := s.txs[t];
    var o := Observation(e, sel, Restrict(s.engines[e], sel));
    assert ObservationOk(cat, base, s.commits, tx.start, o) by {
      EngineKnown(cat, base, s, e);
      forall k | Selects(sel, k) ensures CellOk(cat, base, s.commits, tx.start, e, k, Lookup(o.seen, k)) {
        LiveCell(cat, base, s, tx.start, e, k);
      }
    }
    assert Tracked(tx.tracked, tx.ranges, o);
    ObserveOk(cat, base, s.commits, s.version, tx, o);
    LocalStep(cat, base, s, t, tx.(seen := tx.seen + [o]));
  }

  lemma ObserveOk(cat: Catalog, base: Tables, commits: seq<Commit>, version: nat, tx: Tx, o: Observation)
    requires TxOk(cat, base, commits, version, tx) && tx.phase.Running?
    requires ObservationOk(cat, base, commits, tx.start, o) && Tracked(tx.tracked, tx.ranges, o)
    ensures TxOk(cat, base, commits, version, tx.(seen := tx.seen + [o]))
  {
    hide ObservationOk, Tracked, BufferOk;
  }

  lemma PhaseKeeps(cat: Catalog, base: Tables, s: State, t: nat, phase: Phase, buf: Buffer)
    requires Inv(cat, base, s) && t in s.txs && !s.txs[t].phase.Applying? && !phase.Applying?
    requires BufferOk(cat, buf)
    requires s.txs[t].start <= s.version <= |s.commits|
    requires PhaseOk(cat, base, s.commits, s.version, s.txs[t].(phase := phase, buf := buf))
    requires phase.Limited? ==> LimitOk(s.txs, phase.limit)
    ensures Inv(cat, base, SetTx(s, t, s.txs[t].(phase := phase, buf := buf)))
  {
    var tx := s.txs[t];
    LocalStep(cat, base, s, t, tx.(phase := phase, buf := buf));
  }

  lemma FetchKeeps(cat: Catalog, base: Tables, s: State, t: nat, e: EngineId)
    requires Inv(cat, base, s) && Enabled(cat, s, FetchOld(t, e))
    ensures Inv(cat, base, Next(cat, s, FetchOld(t, e)))
  {
    hide Inv, LogOk, EnginesOk, WriterOk, IsEngine, CellOk, ObservationOk, Tracked, BufferOk;
    InvTx(cat, base, s, t);
    EngineKnown(cat, base, s, e);
    var tx := s.txs[t];
    var cell := Restrict(s.engines[e], Points(tx.buf[e.table].Keys));
    var tx' := tx.(phase := Fetching(tx.phase.fetch[e := cell]));
    assert FetchOk(cat, base, s.commits, tx.start, tx.buf, tx'.phase.fetch) by {
      forall k | k in tx.buf[e.table] ensures CellOk(cat, base, s.commits, tx.start, e, k, Lookup(cell, k)) {
        LiveCell(cat, base, s, tx.start, e, k);
      }
    }
    PhaseKeeps(cat, base, s, t, tx'.phase, tx.buf);
  }

  lemma SnapshotKeeps(cat: Catalog, base: Tables, s: State, t: nat)
    requires Inv(cat, base, s) && Enabled(cat, s, CheckSnapshot(t))
    ensures Inv(cat, base, Next(cat, s, CheckSnapshot(t)))
  {
    var tx := s.txs[t];
    var f := CommitFootprint(tx, tx.phase.plan.keys);
    HistoryScan(s.version, s.history, s.commits, tx.start, f);
    NewestIsVersion(s.version, s.history, s.commits, tx.start);
    if Rejects(s.history, tx.start, f) {
      PhaseKeeps(cat, base, s, t, Running, tx.buf);
    } else {
      PhaseKeeps(cat, base, s, t, Checked(tx.phase.plan, s.version), tx.buf);
    }
  }

  lemma LimitKeeps(cat: Catalog, base: Tables, s: State, t: nat, m: Option<nat>)
    requires Inv(cat, base, s) && Enabled(cat, s, TakeLimit(t, m))
    ensures Inv(cat, base, Next(cat, s, TakeLimit(t, m)))
  {
    hide LogOk, HistoryOk, Serializable, EnginesOk, WriterOk, LeavingOk, LimitsOk, PlanOk, ClearUpTo, ObservationOk;
    var tx := s.txs[t];
    assert t in Active(s.txs);
    assert LimitOk(s.txs, m) by {
      forall u | u in s.txs ensures m.value <= s.txs[u].start {
        assert u in Active(s.txs);
      }
    }
    PhaseKeeps(cat, base, s, t, Limited(tx.phase.plan, tx.phase.snapshot, m), tx.buf);
  }

  // ---------- Registration ----------

  lemma RegisterKeeps(cat: Catalog, base: Tables, s: State, t: nat)
    requires Inv(cat, base, s) && Enabled(cat, s, Register(t))
    ensures Inv(cat, base, Next(cat, s, Register(t)))
  {
    hide LogOk, HistoryOk, Serializable, TxOk, EnginesOk, LimitsOk, WriterOk;
    var tx := Tx(s.version, map[], map[], map[], [], Running);
    FreshTxOk(cat, base, s.commits, s.version);
    EnginesFresh(cat, base, s, t, tx);
    LimitsFresh(s.txs, t, tx, s.version);
    VersionReached(s);
  }

  lemma VersionReached(s: State)
    requires WriterOk(s)
    ensures s.version <= |s.commits|
  {
  }

  lemma FreshTxOk(cat: Catalog, base: Tables, commits: seq<Commit>, version: nat)
    ensures version <= |commits| ==> TxOk(cat, base, commits, version, Tx(version, map[], map[], map[], [], Running))
  {
  }

  lemma EnginesFresh(cat: Catalog, base: Tables, s: State, t: nat, tx: Tx)
    requires EnginesOk(cat, base, s) && WriterOk(s) && s.writer.None? && t !in s.txs && tx.phase.Running?
    ensures EnginesOk(cat, base, SetTx(s, t, tx)) && WriterOk(SetTx(s, t, tx))
  {
    hide Serial, IsEngine;
    assert forall e :: Reached(SetTx(s, t, tx), e) == Reached(s, e);
  }

  lemma LimitsFresh(txs: map<nat, Tx>, t: nat, tx: Tx, version: nat)
    requires LimitsOk(txs) && t !in txs && tx.phase.Running? && tx.start == version
    requires forall u :: u in txs ==> txs[u].start <= version
    ensures LimitsOk(txs[t := tx])
  {
    forall u | u in txs && (txs[u].phase.Limited? || txs[u].phase.Applying?) ensures LimitOk(txs[t := tx], txs[u].phase.limit) {
      assert txs[u].phase.limit.value <= txs[u].start <= version;
    }
  }

  lemma LeaveKeeps(cat: Catalog, base: Tables, s: State, t: nat, m: Option<nat>)
    requires Inv(cat, base, s) && Enabled(cat, s, Leave(t, m))
    ensures Inv(cat, base, Next(cat, s, Leave(t, m)))
  {
    hide LogOk, HistoryOk, Serializable, TxOk, EnginesOk, WriterOk, IsMinStart, LeavingOk, LimitsOk;
    LeavingFresh(s, t, m);
    LeaveEngines(cat, base, s, t, m);
    LeaveLimits(s.txs, t);
  }

  lemma LeaveLimits(txs: map<nat, Tx>, t: nat)
    requires LimitsOk(txs)
    ensures LimitsOk(txs - {t})
  {
  }

  lemma LeaveEngines(cat: Catalog, base: Tables, s: State, t: nat, m: Option<nat>)
    requires EnginesOk(cat, base, s) && WriterOk(s) && t in s.txs && s.txs[t].phase.Running?
    ensures EnginesOk(cat, base, Left(s, t, m)) && WriterOk(Left(s, t, m))
  {
    hide Serial, IsEngine;
    forall e ensures Reached(Left(s, t, m), e) == Reached(s, e) {
    }
  }

  lemma LeavingFresh(s: State, t: nat, m: Option<nat>)
    requires LeavingOk(s) && PruningSafe(s) && t in s.txs && IsMinStart(Active(s.txs - {t}), m)
    ensures LeavingOk(Left(s, t, m))
  {
    if m.Some? {
      var u :| u in Active(s.txs - {t}) && Active(s.txs - {t})[u] == m.value;
      assert m.value == s.txs[u].start <= s.version;
      forall v | v in s.txs - {t} ensures m.value <= s.txs[v].start {
        assert v in Active(s.txs - {t});
      }
    }
  }

  lemma LoadKeeps(cat: Catalog, base: Tables, s: State, t: nat)
    requires Inv(cat, base, s) && Enabled(cat, s, LoadVersion(t))
    ensures Inv(cat, base, Next(cat, s, LoadVersion(t)))
  {
    hide LogOk, HistoryOk, Serializable, TxOk, Serial, IsEngine;
    var s' := Next(cat, s, LoadVersion(t));
    forall e | e in s.engines ensures Reached(s', e) == Reached(s, e) {
    }
  }

  lemma PruneKeeps(cat: Catalog, base: Tables, s: State, t: nat)
    requires Inv(cat, base, s) && Enabled(cat, s, Prune(t)) && PrunesHarmlessly(s, t)
    ensures Inv(cat, base, Next(cat, s, Prune(t)))
  {
    hide LogOk, HistoryOk, Serializable, TxOk, Serial, IsEngine, PruningSafe, PrunesHarmlessly;
    var s' := Pruned(s, t);
    PruneSafeExactly(s, t);
    forall e | e in s.engines ensures Reached(s', e) == Reached(s, e) {
    }
  }

  // ---------- Commit ----------

  lemma ReadOnlyKeeps(cat: Catalog, base: Tables, s: State, t: nat)
    requires Inv(cat, base, s) && Enabled(cat, s, CheckReadOnly(t))
    ensures Inv(cat, base, Next(cat, s, CheckReadOnly(t)))
  {
    var tx := s.txs[t];
    var s' := Next(cat, s, CheckReadOnly(t));
    HistoryScan(s.version, s.history, s.commits, tx.start, Footprint(tx.tracked, tx.ranges, map[]));
    if s' != s {
      ClearSeen(cat, base, s.commits, s.version, tx, map[]);
      forall e | e in s.engines ensures Reached(s', e) == Reached(s, e) {
      }
    }
  }

  lemma CellKept(cat: Catalog, base: Tables, commits: seq<Commit>, c: Commit, start: nat, e: EngineId, k: DbKey,
      v: Option<Stored>)
    requires start <= |commits| && CellOk(cat, base, commits, start, e, k, v)
    ensures CellOk(cat, base, commits + [c], start, e, k, v)
  {
    SerialAppend(cat, base, commits, c, start, e);
    if TouchedBetween(commits, start, |commits|, SpaceOf(e), k) {
      var j :| start <= j < |commits| && Touches(commits[j].keys, SpaceOf(e), k);
      assert (commits + [c])[j] == commits[j];
    }
  }

  lemma TxKept(cat: Catalog, base: Tables, commits: seq<Commit>, c: Commit, version: nat, tx: Tx)
    requires TxOk(cat, base, commits, version, tx)
    ensures TxOk(cat, base, commits + [c], version, tx)
  {
    forall start, e, k, v | 0 <= start <= |commits| && CellOk(cat, base, commits, start, e, k, v)
      ensures CellOk(cat, base, commits + [c], start, e, k, v)
    {
      CellKept(cat, base, commits, c, start, e, k, v);
    }
  }

  lemma LogAppend(cat: Catalog, base: Tables, commits: seq<Commit>, c: Commit)
    requires LogOk(cat, base, commits) && BufferOk(cat, c.buf)
    requires c.prior == AllPreimages(Logical(base, commits), c.buf) && c.buf.Keys <= c.prior.Keys
    requires c.keys == WriteKeys(cat, c.buf, c.prior)
    ensures LogOk(cat, base, commits + [c])
  {
    var commits' := commits + [c];
    forall i | 0 <= i < |commits'| ensures CommitTrue(cat, base, commits', i) {
      assert commits'[..i] == commits[..i];
      if i < |commits| {
        assert CommitTrue(cat, base, commits, i);
      } else {
        assert commits[..i] == commits;
      }
    }
  }

  lemma SerializableAppend(cat: Catalog, base: Tables, commits: seq<Commit>, audits: seq<Audit>, c: Commit)
    requires Serializable(cat, base, commits, audits) && SeenAt(cat, base, commits, |commits|, c.seen)
    ensures Serializable(cat, base, commits + [c], audits)
  {
    forall n, e | 0 <= n <= |commits|
      ensures Serial(cat, base, commits + [c], n, e) == Serial(cat, base, commits, n, e)
    {
      SerialAppend(cat, base, commits, c, n, e);
    }
  }

  ghost predicate Accepts(s: State, t: nat)
  {
    && t in s.txs && s.txs[t].phase.Limited? && s.writer.None?
    && !Rejects(s.history, s.txs[t].phase.snapshot, CommitFootprint(s.txs[t], s.txs[t].phase.plan.keys))
  }

  lemma AcceptWriter(s: State, t: nat)
    requires WriterOk(s) && LimitsOk(s.txs) && PruningSafe(s) && LeavingOk(s) && Accepts(s, t)
    ensures var s' := Accepted(s, t); WriterOk(s') && LimitsOk(s'.txs) && PruningSafe(s') && LeavingOk(s')
  {
    hide Rejects;
  }

  lemma AcceptEngines(cat: Catalog, base: Tables, s: State, t: nat)
    requires EnginesOk(cat, base, s) && WriterOk(s) && Accepts(s, t)
    ensures EnginesOk(cat, base, Accepted(s, t))
  {
    hide Serial, IsEngine, Rejects;
    var s' := Accepted(s, t);
    forall e | e in s'.engines ensures s'.engines[e] == Serial(cat, base, s'.commits, Reached(s', e), e) {
      SerialAppend(cat, base, s.commits, s'.commits[|s.commits|], |s.commits|, e);
    }
  }

  lemma AcceptTxs(cat: Catalog, base: Tables, s: State, t: nat, u: nat)
    requires Inv(cat, base, s) && Accepts(s, t) && u in s.txs
    ensures var s' := Accepted(s, t); TxOk(cat, base, s'.commits, s'.version, s'.txs[u])
  {
    var s' := Accepted(s, t);
    assert TxOk(cat, base, s.commits, s.version, s.txs[u]);
    TxKept(cat, base, s.commits, s'.commits[|s.commits|], s.version, s.txs[u]);
  }

  lemma AcceptLog(cat: Catalog, base: Tables, s: State, t: nat)
    requires Inv(cat, base, s) && Accepts(s, t)
    ensures var s' := Accepted(s, t);
            LogOk(cat, base, s'.commits) && Serializable(cat, base, s'.commits, s'.audits)
  {
    var tx := s.txs[t];
    assert TxOk(cat, base, s.commits, s.version, tx);
    var plan := tx.phase.plan;
    var c := Commit(t, tx.buf, plan.prior, plan.keys, tx.seen);
    TwoPhaseIsOneScan(cat, base, s, t);
    ClearSeen(cat, base, s.commits, s.version, tx, plan.keys);
    ClearPlan(cat, base, s.commits, tx, plan);
    LogAppend(cat, base, s.commits, c);
    SerializableAppend(cat, base, s.commits, s.audits, c);
  }

  lemma AcceptKeeps(cat: Catalog, base: Tables, s: State, t: nat)
    requires Inv(cat, base, s) && Accepts(s, t)
    ensures Inv(cat, base, Accepted(s, t))
  {
    hide LogOk, Serializable, EnginesOk, WriterOk, LimitsOk, LeavingOk, TxOk, Rejects;
    var s' := Accepted(s, t);
    AcceptLog(cat, base, s, t);
    AcceptWriter(s, t);
    AcceptEngines(cat, base, s, t);
    forall u | u in s.txs ensures TxOk(cat, base, s'.commits, s'.version, s'.txs[u]) {
      AcceptTxs(cat, base, s, t, u);
    }
    assert HistoryOk(s'.version, s'.history, s'.commits);
  }

  lemma ApplyEngines(cat: Catalog, base: Tables, s: State, t: nat, e: EngineId)
    requires LogOk(cat, base, s.commits) && WriterOk(s) && EnginesOk(cat, base, s)
    requires t in s.txs && s.txs[t].phase.Applying? && e in s.txs[t].phase.pending && e in s.engines
    ensures var s' := Applied(cat, s, t, e); WriterOk(s') && EnginesOk(cat, base, s')
  {
    hide LogOk, Serial, Batch;
    var s' := Applied(cat, s, t, e);
    SerialStep(cat, base, s.commits, |s.commits| - 1, e);
    assert WriterOk(s');
    forall x | x in s'.engines ensures s'.engines[x] == Serial(cat, base, s'.commits, Reached(s', x), x) {
      assert s.engines[x] == Serial(cat, base, s.commits, Reached(s, x), x);
    }
  }

  /** The writer keeps its own invariant while it applies its batches and when it is done. */
  lemma WriterTx(cat: Catalog, base: Tables, commits: seq<Commit>, tx: Tx, version: nat, version': nat, phase: Phase,
      buf: Buffer)
    requires TxOk(cat, base, commits, version, tx) && version <= version' <= |commits|
    requires phase.Running? || phase.Applying?
    requires BufferOk(cat, buf)
    ensures TxOk(cat, base, commits, version', tx.(phase := phase, buf := buf))
  {
  }

  lemma ApplyKeeps(cat: Catalog, base: Tables, s: State, t: nat, e: EngineId)
    requires Inv(cat, base, s)
    requires t in s.txs && s.txs[t].phase.Applying? && e in s.txs[t].phase.pending && e in s.engines
    ensures Inv(cat, base, Applied(cat, s, t, e))
  {
    hide LogOk, HistoryOk, Serializable, EnginesOk, WriterOk, LeavingOk, Batch, ObservationOk;
    var s' := Applied(cat, s, t, e);
    LeavingLocal(s, t, s'.txs[t]);
    LeavingSame(SetTx(s, t, s'.txs[t]), s');
    ApplyEngines(cat, base, s, t, e);
    var tx' := s.txs[t].(phase := s'.txs[t].phase, buf := s.txs[t].buf);
    WriterTx(cat, base, s.commits, s.txs[t], s.version, s.version, tx'.phase, tx'.buf);
    assert s'.txs == s.txs[t := tx'];
    assert LimitsOk(s'.txs) && PruningSafe(s');
  }

  lemma FinishHistory(s: State, t: nat, u: nat)
    requires HistoryOk(s.version, s.history, s.commits) && PruningSafe(s) && WriterOk(s) && LimitsOk(s.txs)
    requires t in s.txs && s.txs[t].phase.Applying? && u in s.txs
    ensures var s' := Finished(s, t);
            HistoryOk(s'.version, s'.history, s'.commits) && s'.version - |s'.history| <= s.txs[u].start <= s'.version
  {
    var plan, limit := s.txs[t].phase.plan, s.txs[t].phase.limit;
    var history := s.history + [CommitRecord(s.version + 1, plan.keys)];
    assert HistoryOk(s.version + 1, history, s.commits);
    assert LimitOk(s.txs, limit);
    RetainSafe(s.version + 1, history, s.commits, s.txs[u].start, limit.value);
  }

  lemma FinishEngines(cat: Catalog, base: Tables, s: State, t: nat)
    requires WriterOk(s) && EnginesOk(cat, base, s) && LimitsOk(s.txs)
    requires t in s.txs && s.txs[t].phase.Applying? && s.txs[t].phase.pending == {}
    ensures var s' := Finished(s, t); WriterOk(s') && EnginesOk(cat, base, s') && LimitsOk(s'.txs)
  {
    hide Serial;
    var s' := Finished(s, t);
    assert s.writer == Some(t);
    forall e | e in s.engines ensures Reached(s', e) == Reached(s, e) {
    }
  }

  lemma FinishKeeps(cat: Catalog, base: Tables, s: State, t: nat)
    requires Inv(cat, base, s)
    requires t in s.txs && s.txs[t].phase.Applying? && s.txs[t].phase.pending == {}
    ensures Inv(cat, base, Finished(s, t))
  {
    var s' := Finished(s, t);
    FinishEngines(cat, base, s, t);
    FinishHistory(s, t, t);
    forall u | u in s.txs
      ensures TxOk(cat, base, s'.commits, s'.version, s'.txs[u])
      ensures s'.version - |s'.history| <= s'.txs[u].start <= s'.version
    {
      FinishHistory(s, t, u);
      assert TxOk(cat, base, s.commits, s.version, s.txs[u]);
      if u == t {
        WriterTx(cat, base, s.commits, s.txs[t], s.version, s'.version, Running, map[]);
      }
    }
  }

  // ---------- Runs ----------

  lemma QuietKeeps(cat: Catalog, base: Tables, s: State, step: Step)
    requires step.Rollback? || step.BeginCommit? || step.Prepare?
    requires Inv(cat, base, s) && Enabled(cat, s, step)
    ensures Inv(cat, base, Next(cat, s, step))
  {
    hide LogOk, HistoryOk, Serializable, EnginesOk, WriterOk, LimitsOk, ObservationOk;
    var tx := s.txs[step.t];
    assert TxOk(cat, base, s.commits, s.version, tx);
    match step
    case Rollback(t) => PhaseKeeps(cat, base, s, t, Running, map[]);
    case BeginCommit(t) => PhaseKeeps(cat, base, s, t, Fetching(map[]), tx.buf);
    case Prepare(t) =>
      var prior := FetchedRows(cat, tx.buf, tx.phase.fetch);
      PhaseKeeps(cat, base, s, t, Prepared(Plan(tx.phase.fetch, prior, WriteKeys(cat, tx.buf, prior))), tx.buf);
  }

  lemma DeltaKeeps(cat: Catalog, base: Tables, s: State, t: nat)
    requires Inv(cat, base, s) && Enabled(cat, s, CheckDelta(t))
    ensures Inv(cat, base, Next(cat, s, CheckDelta(t)))
  {
    hide Inv;
    if Accepts(s, t) {
      AcceptKeeps(cat, base, s, t);
    } else {
      AbortKeeps(cat, base, s, t);
    }
  }

  lemma AbortKeeps(cat: Catalog, base: Tables, s: State, t: nat)
    requires Inv(cat, base, s) && t in s.txs && !s.txs[t].phase.Applying?
    ensures Inv(cat, base, SetTx(s, t, s.txs[t].(phase := Running)))
  {
    hide LogOk, HistoryOk, Serializable, EnginesOk, WriterOk, LimitsOk, ObservationOk;
    assert TxOk(cat, base, s.commits, s.version, s.txs[t]);
    PhaseKeeps(cat, base, s, t, Running, s.txs[t].buf);
  }

  /** The step is not a prune, or a harmless one. */
  ghost predicate Harmless(s: State, step: Step)
  {
    step.Prune? && step.t in s.leaving && !s.leaving[step.t].FoundNone? ==> PrunesHarmlessly(s, step.t)
  }

  lemma StepKeeps(cat: Catalog, base: Tables, s: State, step: Step)
    requires Inv(cat, base, s) && Enabled(cat, s, step) && Harmless(s, step)
    ensures Inv(cat, base, Next(cat, s, step))
  {
    hide Inv;
    match step
    case Register(t) => RegisterKeeps(cat, base, s, t);
    case Leave(t, m) => LeaveKeeps(cat, base, s, t, m);
    case LoadVersion(t) => LoadKeeps(cat, base, s, t);
    case Prune(t) => PruneKeeps(cat, base, s, t);
    case Write(t, table, k, change) => WriteKeeps(cat, base, s, t, table, k, change);
    case Rollback(_) => QuietKeeps(cat, base, s, step);
    case TrackKey(t, space, k) => TrackKeyKeeps(cat, base, s, t, space, k);
    case TrackRange(t, space, lo, hi) => TrackRangeKeeps(cat, base, s, t, space, lo, hi);
    case Read(t, e, sel) => ReadKeeps(cat, base, s, t, e, sel);
    case BeginCommit(_) => QuietKeeps(cat, base, s, step);
    case FetchOld(t, e) => FetchKeeps(cat, base, s, t, e);
    case Prepare(_) => QuietKeeps(cat, base, s, step);
    case CheckReadOnly(t) => ReadOnlyKeeps(cat, base, s, t);
    case CheckSnapshot(t) => SnapshotKeeps(cat, base, s, t);
    case TakeLimit(t, m) => LimitKeeps(cat, base, s, t, m);
    case CheckDelta(t) => DeltaKeeps(cat, base, s, t);
    case ApplyBatch(t, e) => ApplyKeeps(cat, base, s, t, e);
    case Finish(t) => FinishKeeps(cat, base, s, t);
  }

  /** A freshly opened database whose engines hold the logical tables `base`. */
  ghost predicate Initial(cat: Catalog, base: Tables, s: State)
  {
    && CatalogOk(cat) && TablesOk(cat, base)
    && s.version == 0 && s.history == [] && s.writer.None? && s.txs == map[] && s.leaving == map[] && s.commits == [] && s.audits == []
    && (forall e :: e in s.engines <==> IsEngine(cat, e))
    && (forall e :: e in s.engines ==> s.engines[e] == Contents(cat, base, e))
  }

  /** s' is reached from s by the given steps, whatever their order. */
  ghost predicate Runs(cat: Catalog, s: State, steps: seq<Step>, s': State)
    decreases |steps|
  {
    if steps == [] then s' == s
    else Enabled(cat, s, steps[0]) && Runs(cat, Next(cat, s, steps[0]), steps[1..], s')
  }

  /** Every prune on the way is harmless. */
  ghost predicate Careful(cat: Catalog, s: State, steps: seq<Step>)
    decreases |steps|
  {
    steps == [] || (Enabled(cat, s, steps[0]) ==> Harmless(s, steps[0]) && Careful(cat, Next(cat, s, steps[0]), steps[1..]))
  }

  /** Every state on the way keeps what its registered transactions may need. */
  ghost predicate SafeThroughout(cat: Catalog, s: State, steps: seq<Step>)
    decreases |steps|
  {
    PruningSafe(s) && (steps != [] && Enabled(cat, s, steps[0]) ==> SafeThroughout(cat, Next(cat, s, steps[0]), steps[1..]))
  }

  lemma {:induction false} RunKeeps(cat: Catalog, base: Tables, s: State, steps: seq<Step>, s': State)
    requires Inv(cat, base, s) && Runs(cat, s, steps, s') && Careful(cat, s, steps)
    ensures Inv(cat, base, s')
    decreases |steps|
  {
    if steps != [] {
      StepKeeps(cat, base, s, steps[0]);
      RunKeeps(cat, base, Next(cat, s, steps[0]), steps[1..], s');
    }
  }

  lemma InitialInv(cat: Catalog, base: Tables, s: State)
    requires Initial(cat, base, s)
    ensures Inv(cat, base, s)
  {
    forall e | e in s.engines ensures s.engines[e] == Serial(cat, base, s.commits, Reached(s, e), e) {
      assert s.commits[..0] == [];
    }
  }

  /**
   Serializability in commit order. In every careful run, commit number i saw, in every tracked point
   read, range scan and index scan, exactly what the engines hold after running commits
   0..i-1 alone; it wrote from true old rows; and a read-only commit saw the state it validated in.
   */
  lemma EveryRunIsSerializable(cat: Catalog, base: Tables, s: State, steps: seq<Step>, s': State)
    requires Initial(cat, base, s) && Runs(cat, s, steps, s') && Careful(cat, s, steps)
    ensures Serializable(cat, base, s'.commits, s'.audits)
    ensures forall i :: 0 <= i < |s'.commits| ==> CommitTrue(cat, base, s'.commits, i)
  {
    InitialInv(cat, base, s);
    RunKeeps(cat, base, s, steps, s');
  }

  lemma {:induction false} SafeFrom(cat: Catalog, base: Tables, s: State, steps: seq<Step>)
    requires Inv(cat, base, s)
    ensures SafeThroughout(cat, s, steps) <==> Careful(cat, s, steps)
    decreases |steps|
  {
    hide LogOk, HistoryOk, Serializable, EnginesOk, WriterOk, LimitsOk, TxOk, LeavingOk, Enabled, Next;
    if steps != [] && Enabled(cat, s, steps[0]) {
      if Harmless(s, steps[0]) {
        StepKeeps(cat, base, s, steps[0]);
        SafeFrom(cat, base, Next(cat, s, steps[0]), steps[1..]);
      } else {
        HarmfulStep(cat, base, s, steps[0]);
      }
    }
  }

  lemma HarmfulStep(cat: Catalog, base: Tables, s: State, step: Step)
    requires Inv(cat, base, s) && Enabled(cat, s, step) && !Harmless(s, step)
    ensures !PruningSafe(Next(cat, s, step))
  {
    hide LogOk, HistoryOk, Serializable, EnginesOk, WriterOk, LimitsOk, TxOk, LeavingOk, PruningSafe, PrunesHarmlessly;
    PruneSafeExactly(s, step.t);
  }

  /** Exact: a run keeps every record that a registered transaction may need, in all its states, just
      when every prune in it is harmless. */
  lemma RunSafeExactly(cat: Catalog, base: Tables, s: State, steps: seq<Step>)
    requires Initial(cat, base, s)
    ensures SafeThroughout(cat, s, steps) <==> Careful(cat, s, steps)
  {
    InitialInv(cat, base, s);
    SafeFrom(cat, base, s, steps);
  }

  /** In every state of a careful run no record that a registered transaction may still need is pruned. */
  lemma EveryRunPrunesSafely(cat: Catalog, base: Tables, s: State, steps: seq<Step>, s': State)
    requires Initial(cat, base, s) && Runs(cat, s, steps, s') && Careful(cat, s, steps)
    ensures HistoryOk(s'.version, s'.history, s'.commits)
    ensures forall t, j :: t in s'.txs && s'.txs[t].start <= j < s'.version ==>
      CommitRecord(j + 1, s'.commits[j].keys) in s'.history
  {
    hide LogOk, Serializable, EnginesOk, WriterOk, LimitsOk, TxOk;
    InitialInv(cat, base, s);
    RunKeeps(cat, base, s, steps, s');
    forall t, j | t in s'.txs && s'.txs[t].start <= j < s'.version
      ensures CommitRecord(j + 1, s'.commits[j].keys) in s'.history
    {
      var i := j - (s'.version - |s'.history|);
      assert s'.history[i] == CommitRecord(j + 1, s'.commits[j].keys);
    }
  }

  /**
   In every careful run, whenever no commit is being applied, each group engine holds its part of the
   logical rows and each index engine holds exactly the entries of the live rows.
   */
  lemma EveryRunKeepsEnginesInStep(cat: Catalog, base: Tables, s: State, steps: seq<Step>, s': State, e: EngineId)
    requires Initial(cat, base, s) && Runs(cat, s, steps, s') && Careful(cat, s, steps) && s'.writer.None? && IsEngine(cat, e)
    ensures TablesOk(cat, Logical(base, s'.commits))
    ensures e in s'.engines && s'.engines[e] == Contents(cat, Logical(base, s'.commits), e)
  {
    hide CommitTrue, TxOk, Serializable, LimitsOk, HistoryOk, Contents, TablesOk, Initial, Runs;
    InitialInv(cat, base, s);
    RunKeeps(cat, base, s, steps, s');
    LogicalOk(cat, base, s'.commits, |s'.commits|);
    assert s'.commits[..|s'.commits|] == s'.commits;
  }

  /** In every careful run, the two validation scans accept exactly when one scan of all newer commits would. */
  lemma EveryRunValidatesOnce(cat: Catalog, base: Tables, s: State, steps: seq<Step>, s': State, t: nat)
    requires Initial(cat, base, s) && Runs(cat, s, steps, s') && Careful(cat, s, steps)
    requires t in s'.txs && s'.txs[t].phase.Limited? && s'.writer.None?
    ensures var tx := s'.txs[t];
            var accepted := Next(cat, s', CheckDelta(t)).writer == Some(t);
            accepted <==> forall j :: tx.start <= j < |s'.commits| ==>
              !Conflict(s'.commits[j].keys, CommitFootprint(tx, tx.phase.plan.keys))
  {
    hide LogOk, HistoryOk, Serializable, EnginesOk, WriterOk, TxOk, PlanOk, Conflict, Rejects;
    InitialInv(cat, base, s);
    RunKeeps(cat, base, s, steps, s');
    TwoPhaseIsOneScan(cat, base, s', t);
  }
}
