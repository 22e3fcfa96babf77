/**
 Nothing blocks a commit but a clash: in every state of every careful run a commit that has started to
 apply can finish by its own steps, and a transaction that clashes with nothing can commit.
 */
module Progress {
  import opened Values
  import opened Schemas
  import opened Indexes
  import opened Stores
  import opened Occ
  import opened Transactions
  import opened Serializability
  import opened SerialRuns
  import opened SerialSteps
  import opened ExactChecks

  // ---------- Runs of one commit ----------

  /** A step of a commit on its way. */
  predicate Works(step: Step)
  {
    step.BeginCommit? || step.FetchOld? || step.Prepare? || step.CheckSnapshot? || step.TakeLimit? || step.CheckDelta? ||
    step.ApplyBatch?
  }

  /** Steps of t's commit, the last of which finishes it. */
  predicate Ends(steps: seq<Step>, t: nat)
  {
    && steps != [] && steps[|steps| - 1] == Finish(t)
    && forall i :: 0 <= i < |steps| - 1 ==> steps[i].t == t && Works(steps[i])
  }

  lemma Prepend(cat: Catalog, s: State, step: Step, steps: seq<Step>, done: State)
    requires Enabled(cat, s, step) && Works(step)
    requires Runs(cat, Next(cat, s, step), steps, done) && Ends(steps, step.t)
    ensures Runs(cat, s, [step] + steps, done) && Ends([step] + steps, step.t)
  {
    hide Enabled, Next;
    assert ([step] + steps)[1..] == steps;
  }

  // ---------- Applying ----------

  /** A commit owes batches to existing engines only. */
  ghost predicate PendingOk(s: State)
  {
    forall t :: t in s.txs && s.txs[t].phase.Applying? ==> s.txs[t].phase.pending <= s.engines.Keys
  }

  lemma PendingStep(cat: Catalog, s: State, step: Step)
    requires PendingOk(s) && Enabled(cat, s, step)
    ensures PendingOk(Next(cat, s, step))
  {
    hide Enabled, Next;
    EnginesStay(cat, s, step);
    var s' := Next(cat, s, step);
    forall t | t in s'.txs && s'.txs[t].phase.Applying? ensures s'.txs[t].phase.pending <= s'.engines.Keys {
      if t == step.t {
        OwnPending(cat, s, step);
      } else {
        OthersKept(cat, s, step, t);
        assert Lookup(s.txs, t) == Some(s'.txs[t]);
      }
    }
  }

  lemma EnginesStay(cat: Catalog, s: State, step: Step)
    requires Enabled(cat, s, step)
    ensures Next(cat, s, step).engines.Keys == s.engines.Keys
  {
    hide Retain, FetchedRows, WriteKeys, Rejects, NewestVersion, Batch, Tracks, FetchComplete, Restrict, IsMinStart;
  }

  lemma OwnPending(cat: Catalog, s: State, step: Step)
    requires Enabled(cat, s, step) && step.t in Next(cat, s, step).txs && Next(cat, s, step).txs[step.t].phase.Applying?
    ensures var pending := Next(cat, s, step).txs[step.t].phase.pending;
            || pending == s.engines.Keys
            || (step.t in s.txs && s.txs[step.t].phase.Applying? && pending <= s.txs[step.t].phase.pending)
  {
    if step.CheckDelta? {
      hide Rejects;
    } else if step.ApplyBatch? {
      hide Batch, Patch;
    } else {
      hide Enabled, Next;
      NotApplying(cat, s, step);
    }
  }

  lemma NotApplying(cat: Catalog, s: State, step: Step)
    requires Enabled(cat, s, step) && step.t in Next(cat, s, step).txs && !step.CheckDelta? && !step.ApplyBatch?
    ensures var tx := Next(cat, s, step).txs[step.t];
            tx.phase.Applying? ==> step.t in s.txs && s.txs[step.t].phase == tx.phase
  {
    hide Retain, FetchedRows, WriteKeys, Rejects, NewestVersion, Batch, Tracks, FetchComplete, Restrict, IsMinStart;
  }

  lemma {:induction false} RunPending(cat: Catalog, s: State, steps: seq<Step>, s': State)
    requires PendingOk(s) && Runs(cat, s, steps, s')
    ensures PendingOk(s')
    decreases |steps|
  {
    hide Enabled, Next, PendingOk;
    if steps != [] {
      PendingStep(cat, s, steps[0]);
      RunPending(cat, Next(cat, s, steps[0]), steps[1..], s');
    }
  }

  lemma {:induction false} Applies(cat: Catalog, s: State, t: nat) returns (steps: seq<Step>, done: State)
    requires t in s.txs && s.txs[t].phase.Applying? && s.txs[t].phase.pending <= s.engines.Keys
    ensures Runs(cat, s, steps, done) && Ends(steps, t) && done.writer.None?
    decreases s.txs[t].phase.pending
  {
    hide Batch, Retain;
    if s.txs[t].phase.pending == {} {
      steps, done := [Finish(t)], Next(cat, s, Finish(t));
      assert steps[1..] == [];
    } else {
      var e :| e in s.txs[t].phase.pending;
      var step := ApplyBatch(t, e);
      var more;
      more, done := Applies(cat, Next(cat, s, step), t);
      steps := [step] + more;
      Prepend(cat, s, step, more, done);
    }
  }

  // ---------- Validating ----------

  /** t is alone with the history, and nothing since its start conflicts with what it depends on. */
  ghost predicate Clear(cat: Catalog, base: Tables, s: State, t: nat)
  {
    && Inv(cat, base, s) && s.writer.None? && HasFootprint(cat, base, s, t) && s.txs[t].start <= |s.commits|
    && ClearUpTo(s.commits, s.txs[t].start, |s.commits|, TrueFootprint(cat, base, s, t))
  }

  /** What the steps up to the second check leave alone. */
  lemma WorkKeeps(cat: Catalog, s: State, step: Step)
    requires Enabled(cat, s, step) && Works(step) && !step.CheckDelta? && !step.ApplyBatch?
    ensures var s', t := Next(cat, s, step), step.t;
            && t in s.txs && t in s'.txs && s'.writer == s.writer && s'.commits == s.commits && s'.engines == s.engines
            && s'.txs[t].start == s.txs[t].start && s'.txs[t].buf == s.txs[t].buf
            && s'.txs[t].tracked == s.txs[t].tracked && s'.txs[t].ranges == s.txs[t].ranges
  {
    hide Retain, FetchedRows, WriteKeys, Rejects, NewestVersion, Batch, Tracks, FetchComplete, Restrict, IsMinStart;
  }

  lemma ClearKept(cat: Catalog, base: Tables, s: State, step: Step)
    requires Clear(cat, base, s, step.t) && Enabled(cat, s, step) && Works(step) && !step.CheckDelta? && !step.ApplyBatch?
    ensures Clear(cat, base, Next(cat, s, step), step.t)
  {
    hide Enabled, Next, Inv, ClearUpTo, WriteKeys, Logical;
    WorkKeeps(cat, s, step);
    StepKeeps(cat, base, s, step);
  }

  lemma SnapshotPasses(cat: Catalog, base: Tables, s: State, t: nat)
    requires Clear(cat, base, s, t) && Enabled(cat, s, CheckSnapshot(t))
    ensures var s' := Next(cat, s, CheckSnapshot(t));
            t in s'.txs && s'.txs[t].phase.Checked?
  {
    hide Enabled, Next, Inv, ClearUpTo, HasFootprint, TrueFootprint, PlanOk;
    WorkKeeps(cat, s, CheckSnapshot(t));
    SnapshotAccepts(cat, base, s, t);
    PlanClear(cat, base, s, t, s.txs[t].phase.plan);
  }

  lemma DeltaPasses(cat: Catalog, base: Tables, s: State, t: nat)
    requires Clear(cat, base, s, t) && Enabled(cat, s, CheckDelta(t))
    ensures Next(cat, s, CheckDelta(t)).writer == Some(t)
  {
    hide Enabled, Next, Inv, ClearUpTo, HasFootprint, TrueFootprint, PlanOk;
    DeltaAccepts(cat, base, s, t);
    PlanClear(cat, base, s, t, s.txs[t].phase.plan);
  }

  lemma AcceptedOwes(cat: Catalog, s: State, t: nat)
    requires Enabled(cat, s, CheckDelta(t)) && Next(cat, s, CheckDelta(t)).writer == Some(t)
    ensures var s' := Next(cat, s, CheckDelta(t));
            t in s'.txs && s'.txs[t].phase.Applying? && s'.txs[t].phase.pending == s'.engines.Keys
  {
    hide Rejects;
  }

  lemma FromLimited(cat: Catalog, base: Tables, s: State, t: nat) returns (steps: seq<Step>, done: State)
    requires Clear(cat, base, s, t) && t in s.txs && s.txs[t].phase.Limited?
    ensures Runs(cat, s, steps, done) && Ends(steps, t) && done.writer.None?
  {
    var step := CheckDelta(t);
    assert Enabled(cat, s, step);
    hide Enabled, Next, Clear;
    DeltaPasses(cat, base, s, t);
    AcceptedOwes(cat, s, t);
    var more;
    more, done := Applies(cat, Next(cat, s, step), t);
    steps := [step] + more;
    Prepend(cat, s, step, more, done);
  }

  lemma {:induction false} HasLeast(active: map<nat, nat>) returns (m: Option<nat>)
    ensures IsMinStart(active, m)
    decreases |active|
  {
    if active == map[] {
      m := None;
    } else {
      var t :| t in active;
      var rest := active - {t};
      assert rest.Keys == active.Keys - {t};
      var least := HasLeast(rest);
      m := if least.Some? && least.value < active[t] then least else Some(active[t]);
      forall u | u in active ensures m.value <= active[u] {
        assert u == t || (u in rest && rest[u] == active[u]);
      }
    }
  }

  lemma LimitTaken(cat: Catalog, s: State, t: nat, m: Option<nat>)
    requires Enabled(cat, s, TakeLimit(t, m))
    ensures var s' := Next(cat, s, TakeLimit(t, m));
            t in s'.txs && s'.txs[t].phase.Limited?
  {
    hide IsMinStart;
  }

  lemma FromChecked(cat: Catalog, base: Tables, s: State, t: nat) returns (steps: seq<Step>, done: State)
    requires Clear(cat, base, s, t) && t in s.txs && s.txs[t].phase.Checked?
    ensures Runs(cat, s, steps, done) && Ends(steps, t) && done.writer.None?
  {
    var m := HasLeast(Active(s.txs));
    var step := TakeLimit(t, m);
    assert Enabled(cat, s, step) by { hide Clear; }
    hide Enabled, Next, Clear, IsMinStart;
    ClearKept(cat, base, s, step);
    LimitTaken(cat, s, t, m);
    var more;
    more, done := FromLimited(cat, base, Next(cat, s, step), t);
    steps := [step] + more;
    Prepend(cat, s, step, more, done);
  }

  lemma FromPrepared(cat: Catalog, base: Tables, s: State, t: nat) returns (steps: seq<Step>, done: State)
    requires Clear(cat, base, s, t) && t in s.txs && s.txs[t].phase.Prepared?
    ensures Runs(cat, s, steps, done) && Ends(steps, t) && done.writer.None?
  {
    var step := CheckSnapshot(t);
    assert Enabled(cat, s, step);
    hide Enabled, Next, Clear;
    ClearKept(cat, base, s, step);
    SnapshotPasses(cat, base, s, t);
    WorkKeeps(cat, s, step);
    var more;
    more, done := FromChecked(cat, base, Next(cat, s, step), t);
    steps := [step] + more;
    Prepend(cat, s, step, more, done);
  }

  // ---------- Fetching ----------

  /** The groups that a fetching commit has not read yet. */
  ghost function Missing(s: State, t: nat): set<EngineId>
    requires t in s.txs && s.txs[t].phase.Fetching?
  {
    set e | e in s.engines && e.Group? && e.table in s.txs[t].buf && e !in s.txs[t].phase.fetch
  }

  lemma FetchedOne(cat: Catalog, s: State, t: nat, e: EngineId)
    requires t in s.txs && s.txs[t].phase.Fetching? && e in Missing(s, t)
    ensures Enabled(cat, s, FetchOld(t, e))
    ensures var s' := Next(cat, s, FetchOld(t, e));
            t in s'.txs && s'.txs[t].phase.Fetching? && Missing(s', t) == Missing(s, t) - {e}
  {
    hide Restrict;
  }

  lemma AllFetched(cat: Catalog, base: Tables, s: State, t: nat)
    requires Inv(cat, base, s) && t in s.txs && s.txs[t].phase.Fetching? && Missing(s, t) == {}
    ensures Enabled(cat, s, Prepare(t))
  {
    InvTx(cat, base, s, t);
    hide Inv, LogOk, WriterOk, PhaseOk, ObservationOk, Tracked, Serial;
    var tx := s.txs[t];
    assert tx.buf.Keys <= cat.Keys by { BufferTables(cat, tx.buf); }
    forall table, g | table in tx.buf && g in Groups(cat[table].columns) ensures Group(table, g) in tx.phase.fetch {
      assert IsEngine(cat, Group(table, g));
      assert Group(table, g) in s.engines;
      assert Group(table, g) !in Missing(s, t);
    }
  }

  lemma PreparedThen(cat: Catalog, s: State, t: nat)
    requires Enabled(cat, s, Prepare(t))
    ensures var s' := Next(cat, s, Prepare(t));
            t in s'.txs && s'.txs[t].phase.Prepared?
  {
    hide FetchedRows, WriteKeys, FetchComplete;
  }

  lemma {:induction false} FromFetching(cat: Catalog, base: Tables, s: State, t: nat) returns (steps: seq<Step>, done: State)
    requires Clear(cat, base, s, t) && t in s.txs && s.txs[t].phase.Fetching?
    ensures Runs(cat, s, steps, done) && Ends(steps, t) && done.writer.None?
    decreases Missing(s, t)
  {
    assert Inv(cat, base, s);
    hide Enabled, Next, Clear, Inv;
    var more;
    if Missing(s, t) == {} {
      var step := Prepare(t);
      AllFetched(cat, base, s, t);
      ClearKept(cat, base, s, step);
      PreparedThen(cat, s, t);
      more, done := FromPrepared(cat, base, Next(cat, s, step), t);
      steps := [step] + more;
      Prepend(cat, s, step, more, done);
    } else {
      var e :| e in Missing(s, t);
      var step := FetchOld(t, e);
      FetchedOne(cat, s, t, e);
      ClearKept(cat, base, s, step);
      more, done := FromFetching(cat, base, Next(cat, s, step), t);
      steps := [step] + more;
      Prepend(cat, s, step, more, done);
    }
  }

  // ---------- All runs ----------

  /** In every state of every careful run, the commit that holds the history can finish by its own steps. */
  lemma EveryWriterFinishes(cat: Catalog, base: Tables, s: State, steps: seq<Step>, s': State)
    returns (more: seq<Step>, done: State)
    requires Initial(cat, base, s) && Runs(cat, s, steps, s') && Careful(cat, s, steps) && s'.writer.Some?
    ensures Runs(cat, s', more, done) && Ends(more, s'.writer.value) && done.writer.None?
  {
    Reaches(cat, base, s, steps, s');
    RunPending(cat, s, steps, s');
    var t := s'.writer.value;
    WriterApplies(cat, base, s');
    more, done := Applies(cat, s', t);
  }

  lemma WriterApplies(cat: Catalog, base: Tables, s: State)
    requires Inv(cat, base, s) && s.writer.Some?
    ensures s.writer.value in s.txs && s.txs[s.writer.value].phase.Applying?
  {
    hide LogOk, HistoryOk, PruningSafe, EnginesOk, LimitsOk, LeavingOk, TxOk, Serializable;
  }

  /**
   Only a clash refuses a commit. In every state of every careful run in which no commit holds the
   history, a transaction with writes that clashes with no finished one can commit by its own steps.
   */
  lemma EveryClearCommitFinishes(cat: Catalog, base: Tables, s: State, steps: seq<Step>, s': State, t: nat)
    returns (more: seq<Step>, done: State)
    requires Initial(cat, base, s) && Runs(cat, s, steps, s') && Careful(cat, s, steps) && s'.writer.None?
    requires t in s'.txs && s'.txs[t].phase.Running? && s'.txs[t].buf != map[] && !Clashes(cat, base, steps, t)
    ensures Runs(cat, s', more, done) && Ends(more, t) && done.writer.None?
  {
    var step := BeginCommit(t);
    assert Enabled(cat, s', step);
    var next := Next(cat, s', step);
    assert t in next.txs && next.txs[t].phase.Fetching?;
    hide Enabled, Next, Runs, Careful, Initial, Clashes, Inv, HasFootprint, TrueFootprint, ClearUpTo;
    Reaches(cat, base, s, steps, s');
    ClearIffNoClash(cat, base, s, steps, s', t);
    StartReached(cat, base, s', t);
    InvVersion(cat, base, s');
    ClearKept(cat, base, s', step);
    var rest;
    rest, done := FromFetching(cat, base, next, t);
    more := [step] + rest;
    Prepend(cat, s', step, rest, done);
  }
}
