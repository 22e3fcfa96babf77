/**
 Unregistering in three steps: the version is loaded after the active set was found empty. A
 transaction that registers in between can lose a record it needs, and then commit on a stale read.
 */
module LateLoad {
  import opened Values
  import opened Schemas
  import opened Indexes
  import opened Stores
  import opened Occ
  import opened Transactions
  import opened Serializability
  import opened SerialRuns

  // ---------- When nobody registers in the gap ----------

  /** Some transaction found the active set empty and has not pruned yet. */
  ghost predicate InGap(s: State)
  {
    exists t :: t in s.leaving && !s.leaving[t].Least?
  }

  /** No transaction registers while another one is in the gap. */
  ghost predicate Gapless(cat: Catalog, s: State, steps: seq<Step>)
    decreases |steps|
  {
    steps == [] || (Enabled(cat, s, steps[0]) ==>
      (steps[0].Register? ==> !InGap(s)) && Gapless(cat, Next(cat, s, steps[0]), steps[1..]))
  }

  lemma GapStep(cat: Catalog, s: State, step: Step)
    requires Enabled(cat, s, step) && (InGap(s) ==> s.txs == map[]) && (step.Register? ==> !InGap(s))
    ensures InGap(Next(cat, s, step)) ==> Next(cat, s, step).txs == map[]
  {
    hide Retain, FetchedRows, WriteKeys, Rejects, NewestVersion, Batch;
    var s' := Next(cat, s, step);
    if step.Leave? && step.m.None? {
      assert Active(s.txs - {step.t}).Keys == (s.txs - {step.t}).Keys;
    } else if InGap(s') {
      var t :| t in s'.leaving && !s'.leaving[t].Least?;
      assert t in s.leaving && !s.leaving[t].Least?;
    }
  }

  lemma GapHarmless(s: State, step: Step)
    requires LeavingOk(s) && (InGap(s) ==> s.txs == map[])
    ensures Harmless(s, step)
  {
    if step.Prune? && step.t in s.leaving && s.leaving[step.t].Least? {
      LeastIsHarmless(s, step.t);
    }
  }

  lemma {:induction false} GaplessFrom(cat: Catalog, base: Tables, s: State, steps: seq<Step>)
    requires Inv(cat, base, s) && (InGap(s) ==> s.txs == map[]) && Gapless(cat, s, steps)
    ensures Careful(cat, s, steps)
    decreases |steps|
  {
    hide LogOk, HistoryOk, Serializable, EnginesOk, WriterOk, LimitsOk, TxOk, LeavingOk, PruningSafe, Enabled, Next, InGap, Harmless;
    if steps != [] && Enabled(cat, s, steps[0]) {
      GapHarmless(s, steps[0]);
      StepKeeps(cat, base, s, steps[0]);
      GapStep(cat, s, steps[0]);
      GaplessFrom(cat, base, Next(cat, s, steps[0]), steps[1..]);
    }
  }

  /** A run in which nobody registers in the gap prunes harmlessly. */
  lemma GaplessIsCareful(cat: Catalog, base: Tables, s: State, steps: seq<Step>)
    requires Initial(cat, base, s) && Gapless(cat, s, steps)
    ensures Careful(cat, s, steps)
  {
    InitialInv(cat, base, s);
    GaplessFrom(cat, base, s, steps);
  }

  // ---------- A database of one table ----------

  const E: EngineId := Group("t", "")

  function OneTable(): Catalog
  {
    map["t" := TableDef([Column(0, "k", TInt, true, false, "", None)], map[])]
  }

  function NoRows(): Tables
  {
    map["t" := map[]]
  }

  function Opened(): State
  {
    State(0, [], map[E := map[]], None, map[], map[], [], [])
  }

  lemma OneEngine(e: EngineId)
    ensures IsEngine(OneTable(), e) <==> e == E
  {
    var cols := OneTable()["t"].columns;
    assert cols[0] in cols;
  }

  lemma OpenedInitial()
    ensures Initial(OneTable(), NoRows(), Opened())
  {
    forall e ensures e in Opened().engines <==> IsEngine(OneTable(), e) {
      OneEngine(e);
    }
  }

  // ---------- Steps, one after another ----------

  lemma {:induction false} Then(cat: Catalog, s: State, steps: seq<Step>, s1: State, step: Step)
    requires Runs(cat, s, steps, s1) && Enabled(cat, s1, step)
    ensures Runs(cat, s, steps + [step], Next(cat, s1, step))
    decreases |steps|
  {
    hide Enabled, Next;
    if steps == [] {
      assert (steps + [step])[0] == step && (steps + [step])[1..] == [];
    } else {
      assert (steps + [step])[1..] == steps[1..] + [step];
      Then(cat, Next(cat, s, steps[0]), steps[1..], s1, step);
    }
  }

  /** Where a one-table database stands when no commit is under way. */
  ghost predicate Idle(s: State)
  {
    s.writer == None && s.engines.Keys == {E}
  }

  function OneChange(k: DbKey, row: Row): Buffer
  {
    map["t" := map[k := Some(row)]]
  }

  lemma OneChangeKeys(k: DbKey, row: Row, prior: Tables)
    requires prior.Keys == {"t"}
    ensures WriteKeys(OneTable(), OneChange(k, row), prior) == map["t" := {k}]
  {
    var cat, buf := OneTable(), OneChange(k, row);
    assert WriteSpaces(cat, buf) == {"t"};
    assert IndexKeysIn(cat, buf, prior, "t") == {};
    assert buf["t"].Keys == {k};
    var keys := WriteKeys(cat, buf, prior);
    assert keys.Keys == {"t"} && keys["t"] == {k} + {};
    assert {k} + {} == {k};
  }

  function PlanFor(s: State, k: DbKey, row: Row): Plan
    requires E in s.engines
  {
    var fetch := map[E := Restrict(s.engines[E], Points({k}))];
    Plan(fetch, FetchedRows(OneTable(), OneChange(k, row), fetch), map["t" := {k}])
  }

  lemma Begin(s0: State, steps: seq<Step>, s: State, t: nat) returns (s': State)
    requires Runs(OneTable(), s0, steps, s) && t in s.txs && s.txs[t].phase.Running? && "t" in s.txs[t].buf
    ensures Runs(OneTable(), s0, steps + [BeginCommit(t)], s') && s' == SetTx(s, t, s.txs[t].(phase := Fetching(map[])))
  {
    hide Runs;
    assert s.txs[t].buf != map[];
    Then(OneTable(), s0, steps, s, BeginCommit(t));
    s' := Next(OneTable(), s, BeginCommit(t));
  }

  lemma FetchE(s0: State, steps: seq<Step>, s: State, t: nat, k: DbKey, row: Row) returns (s': State)
    requires Runs(OneTable(), s0, steps, s) && Idle(s) && t in s.txs && s.txs[t].phase == Fetching(map[])
    requires s.txs[t].buf == OneChange(k, row)
    ensures Runs(OneTable(), s0, steps + [FetchOld(t, E)], s')
    ensures s' == SetTx(s, t, s.txs[t].(phase := Fetching(PlanFor(s, k, row).fetch)))
  {
    hide Runs, FetchedRows;
    Then(OneTable(), s0, steps, s, FetchOld(t, E));
    s' := Next(OneTable(), s, FetchOld(t, E));
    assert OneChange(k, row)["t"].Keys == {k};
  }

  lemma PrepareOne(s0: State, steps: seq<Step>, s: State, t: nat, k: DbKey, row: Row, fetch: Fetch) returns (s': State)
    requires Runs(OneTable(), s0, steps, s) && t in s.txs && s.txs[t].phase == Fetching(fetch) && fetch.Keys == {E}
    requires s.txs[t].buf == OneChange(k, row)
    ensures Runs(OneTable(), s0, steps + [Prepare(t)], s')
    ensures s' == SetTx(s, t, s.txs[t].(phase := Prepared(Plan(fetch, FetchedRows(OneTable(), OneChange(k, row), fetch), map["t" := {k}]))))
  {
    hide Runs, FetchedTable;
    var cat := OneTable();
    forall g | g in Groups(cat["t"].columns) ensures Group("t", g) == E {
      OneEngine(Group("t", g));
    }
    Then(cat, s0, steps, s, Prepare(t));
    s' := Next(cat, s, Prepare(t));
    OneChangeKeys(k, row, FetchedRows(cat, OneChange(k, row), fetch));
  }

  /** Gathering the old rows of a buffer with one change. */
  lemma Gather(s0: State, steps: seq<Step>, s: State, t: nat, k: DbKey, row: Row) returns (more: seq<Step>, s': State)
    requires Runs(OneTable(), s0, steps, s) && Idle(s) && t in s.txs && s.txs[t].phase.Running? && s.txs[t].buf == OneChange(k, row)
    ensures Runs(OneTable(), s0, more, s') && s' == SetTx(s, t, s.txs[t].(phase := Prepared(PlanFor(s, k, row))))
  {
    hide Runs, FetchedRows;
    var s1 := Begin(s0, steps, s, t);
    var s2 := FetchE(s0, steps + [BeginCommit(t)], s1, t, k, row);
    more := steps + [BeginCommit(t)] + [FetchOld(t, E)];
    s' := PrepareOne(s0, more, s2, t, k, row, PlanFor(s, k, row).fetch);
    more := more + [Prepare(t)];
  }

  lemma PassSnapshot(s0: State, steps: seq<Step>, s: State, t: nat, plan: Plan) returns (s': State)
    requires Runs(OneTable(), s0, steps, s) && Idle(s) && t in s.txs && s.txs[t].phase == Prepared(plan)
    requires !Rejects(s.history, s.txs[t].start, CommitFootprint(s.txs[t], plan.keys))
    ensures Runs(OneTable(), s0, steps + [CheckSnapshot(t)], s')
    ensures s' == SetTx(s, t, s.txs[t].(phase := Checked(plan, NewestVersion(s.history, s.txs[t].start))))
  {
    hide Runs, NewestVersion, Rejects;
    Then(OneTable(), s0, steps, s, CheckSnapshot(t));
    s' := Next(OneTable(), s, CheckSnapshot(t));
  }

  lemma PassLimit(s0: State, steps: seq<Step>, s: State, t: nat, plan: Plan, snapshot: nat, m: nat) returns (s': State)
    requires Runs(OneTable(), s0, steps, s) && t in s.txs && s.txs[t].phase == Checked(plan, snapshot)
    requires IsMinStart(Active(s.txs), Some(m))
    ensures Runs(OneTable(), s0, steps + [TakeLimit(t, Some(m))], s')
    ensures s' == SetTx(s, t, s.txs[t].(phase := Limited(plan, snapshot, Some(m))))
  {
    hide Runs, IsMinStart;
    Then(OneTable(), s0, steps, s, TakeLimit(t, Some(m)));
    s' := Next(OneTable(), s, TakeLimit(t, Some(m)));
  }

  lemma PassDelta(s0: State, steps: seq<Step>, s: State, t: nat, plan: Plan, snapshot: nat, m: nat) returns (s': State)
    requires Runs(OneTable(), s0, steps, s) && Idle(s) && t in s.txs && s.txs[t].phase == Limited(plan, snapshot, Some(m))
    requires !Rejects(s.history, snapshot, CommitFootprint(s.txs[t], plan.keys))
    ensures Runs(OneTable(), s0, steps + [CheckDelta(t)], s') && s' == Accepted(s, t)
  {
    hide Runs, Rejects;
    Then(OneTable(), s0, steps, s, CheckDelta(t));
    s' := Next(OneTable(), s, CheckDelta(t));
  }

  lemma NewerThanNewest(history: seq<CommitRecord>, start: nat, f: Footprint)
    ensures !Rejects(history, NewestVersion(history, start), f)
  {
    hide Conflict;
  }

  lemma SameActive(s: State, t: nat, tx: Tx)
    requires t in s.txs && tx.start == s.txs[t].start
    ensures Active(SetTx(s, t, tx).txs) == Active(s.txs)
  {
  }

  /** Both checks pass when no newer record in the history conflicts. */
  lemma Check(s0: State, steps: seq<Step>, s: State, t: nat, plan: Plan, m: nat) returns (more: seq<Step>, s': State)
    requires Runs(OneTable(), s0, steps, s) && Idle(s) && t in s.txs && s.txs[t].phase == Prepared(plan)
    requires !Rejects(s.history, s.txs[t].start, CommitFootprint(s.txs[t], plan.keys)) && IsMinStart(Active(s.txs), Some(m))
    ensures Runs(OneTable(), s0, more, s')
    ensures s' == Accepted(SetTx(s, t, s.txs[t].(phase := Limited(plan, NewestVersion(s.history, s.txs[t].start), Some(m)))), t)
  {
    hide Runs, NewestVersion, Rejects, IsMinStart, Active;
    var tx := s.txs[t];
    var snapshot := NewestVersion(s.history, tx.start);
    var s1 := PassSnapshot(s0, steps, s, t, plan);
    SameActive(s, t, s1.txs[t]);
    more := steps + [CheckSnapshot(t)];
    var s2 := PassLimit(s0, more, s1, t, plan, snapshot, m);
    assert s2 == SetTx(s, t, tx.(phase := Limited(plan, snapshot, Some(m))));
    more := more + [TakeLimit(t, Some(m))];
    NewerThanNewest(s.history, tx.start, CommitFootprint(s2.txs[t], plan.keys));
    s' := PassDelta(s0, more, s2, t, plan, snapshot, m);
    more := more + [CheckDelta(t)];
  }

  /** The one engine is written, the commit recorded. */
  lemma Apply(s0: State, steps: seq<Step>, s: State, t: nat) returns (more: seq<Step>, s': State)
    requires Runs(OneTable(), s0, steps, s) && t in s.txs && s.txs[t].phase.Applying? && s.engines.Keys == {E} == s.txs[t].phase.pending
    ensures Runs(OneTable(), s0, more, s') && Idle(s') && s'.version == s.version + 1
    ensures s'.txs == s.txs[t := s.txs[t].(phase := Running, buf := map[])]
    ensures s'.history == Retain(s.history + [CommitRecord(s.version + 1, s.txs[t].phase.plan.keys)], LimitOr(s.txs[t].phase.limit, s.version + 1))
    ensures s'.leaving == s.leaving && s'.commits == s.commits && s'.audits == s.audits
  {
    hide Runs, Batch, Retain;
    var cat := OneTable();
    Then(cat, s0, steps, s, ApplyBatch(t, E));
    var s1 := Next(cat, s, ApplyBatch(t, E));
    more := steps + [ApplyBatch(t, E)];
    Then(cat, s0, more, s1, Finish(t));
    more := more + [Finish(t)];
    s' := Next(cat, s1, Finish(t));
  }

  /** A registered transaction that nothing in the history conflicts with commits its one change. */
  lemma CommitOne(s0: State, steps: seq<Step>, s: State, t: nat, k: DbKey, row: Row, m: nat) returns (more: seq<Step>, s': State)
    requires Runs(OneTable(), s0, steps, s) && Idle(s) && t in s.txs && s.txs[t].phase.Running? && s.txs[t].buf == OneChange(k, row)
    requires !Rejects(s.history, s.txs[t].start, CommitFootprint(s.txs[t], map["t" := {k}])) && IsMinStart(Active(s.txs), Some(m))
    ensures Runs(OneTable(), s0, more, s') && Idle(s') && s'.version == s.version + 1
    ensures s'.txs == s.txs[t := s.txs[t].(phase := Running, buf := map[])]
    ensures s'.history == Retain(s.history + [CommitRecord(s.version + 1, map["t" := {k}])], m)
    ensures s'.leaving == s.leaving && s'.audits == s.audits
    ensures |s'.commits| == |s.commits| + 1 && s'.commits[..|s.commits|] == s.commits
    ensures s'.commits[|s.commits|].buf == OneChange(k, row) && s'.commits[|s.commits|].seen == s.txs[t].seen
  {
    hide Runs, Retain, Rejects, FetchedRows, NewestVersion, IsMinStart, Active, OneTable, OneChange;
    var s1: State;
    more, s1 := Gather(s0, steps, s, t, k, row);
    SameActive(s, t, s1.txs[t]);
    var s2: State;
    more, s2 := Check(s0, more, s1, t, PlanFor(s, k, row), m);
    more, s' := Apply(s0, more, s2, t);
  }

  // ---------- The run ----------

  const ROW: Row := [Int(1)]

  function Fresh(start: nat): Tx
  {
    Tx(start, map[], map[], map[], [], Running)
  }

  /** A new transaction registers and commits one change. */
  lemma RegisterAndCommit(s0: State, steps: seq<Step>, s: State, t: nat, k: DbKey) returns (more: seq<Step>, s': State)
    requires Runs(OneTable(), s0, steps, s) && Idle(s) && t !in s.txs && t !in s.leaving
    requires (forall i :: 0 <= i < |s.history| ==> s.history[i].version <= s.version)
    requires 1 in s.txs && s.txs[1].start == 0
    ensures Runs(OneTable(), s0, more, s') && Idle(s') && s'.version == s.version + 1
    ensures s'.txs == s.txs[t := Fresh(s.version)]
    ensures s'.history == Retain(s.history + [CommitRecord(s.version + 1, map["t" := {k}])], 0)
    ensures s'.leaving == s.leaving && s'.audits == s.audits
    ensures |s'.commits| == |s.commits| + 1 && s'.commits[..|s.commits|] == s.commits
    ensures s'.commits[|s.commits|].buf == OneChange(k, ROW)
  {
    hide Runs, Retain;
    var cat := OneTable();
    Then(cat, s0, steps, s, Register(t));
    var s1 := Next(cat, s, Register(t));
    more := steps + [Register(t)];
    var s2 := WriteOne(s0, more, s1, t, k);
    more := more + [Write(t, "t", k, Some(ROW))];
    ZeroIsLeast(s2.txs);
    more, s' := CommitOne(s0, more, s2, t, k, ROW, 0);
  }

  lemma ZeroIsLeast(txs: map<nat, Tx>)
    requires 1 in txs && txs[1].start == 0
    ensures IsMinStart(Active(txs), Some(0))
  {
    assert 1 in Active(txs) && Active(txs)[1] == 0;
  }

  lemma WriteOne(s0: State, steps: seq<Step>, s: State, t: nat, k: DbKey) returns (s': State)
    requires Runs(OneTable(), s0, steps, s) && t in s.txs && s.txs[t].phase.Running? && s.txs[t].buf == map[]
    ensures Runs(OneTable(), s0, steps + [Write(t, "t", k, Some(ROW))], s')
    ensures s' == SetTx(s, t, s.txs[t].(buf := OneChange(k, ROW)))
  {
    hide Runs;
    Then(OneTable(), s0, steps, s, Write(t, "t", k, Some(ROW)));
    s' := Next(OneTable(), s, Write(t, "t", k, Some(ROW)));
  }

  function Reader(): Tx
  {
    Tx(0, map[], map["t" := {KInt(1)}], map[], [Observation(E, Points({KInt(1)}), map[])], Running)
  }

  function KeyRecord(version: nat, k: int): CommitRecord
  {
    CommitRecord(version, map["t" := {KInt(k)}])
  }

  /** Transaction 0 leaves and finds nobody registered. */
  lemma FirstLeaves() returns (steps: seq<Step>, s: State)
    ensures Runs(OneTable(), Opened(), steps, s) && s == Opened().(leaving := map[0 := FoundNone])
  {
    var cat, s0 := OneTable(), Opened();
    assert Runs(cat, s0, [], s0);
    hide Runs;
    Then(cat, s0, [], s0, Register(0));
    var s1 := Next(cat, s0, Register(0));
    assert Active(s1.txs - {0}) == map[];
    Then(cat, s0, [] + [Register(0)], s1, Leave(0, None));
    s := Next(cat, s1, Leave(0, None));
    steps := [] + [Register(0)] + [Leave(0, None)];
  }

  lemma TrackOne(k: DbKey)
    ensures AddKey(map[], "t", k) == map["t" := {k}]
  {
    assert {} + {k} == {k};
  }

  lemma RetainedRecords()
    ensures Retain([] + [KeyRecord(1, 1)], 0) == [KeyRecord(1, 1)]
    ensures Retain([KeyRecord(1, 1)] + [KeyRecord(2, 3)], 0) == [KeyRecord(1, 1), KeyRecord(2, 3)]
    ensures Retain([KeyRecord(1, 1), KeyRecord(2, 3)], 2) == [KeyRecord(2, 3)]
  {
    hide Retain;
    var one, two := [KeyRecord(1, 1)], [KeyRecord(1, 1), KeyRecord(2, 3)];
    assert [] + [KeyRecord(1, 1)] == one && [KeyRecord(1, 1)] + [KeyRecord(2, 3)] == two;
    RetainTail(one, 1, 0);
    RetainTail(two, 1, 0);
    RetainTail(two, 1, 2);
    assert one[0..] == one && two[0..] == two && two[1..] == [KeyRecord(2, 3)];
  }

  /** Then transaction 1 registers and finds no row under key 1. */
  lemma ReaderReads() returns (steps: seq<Step>, s: State)
    ensures Runs(OneTable(), Opened(), steps, s) && s == Opened().(leaving := map[0 := FoundNone], txs := map[1 := Reader()])
  {
    hide Runs;
    var cat, s0 := OneTable(), Opened();
    var s1: State;
    steps, s1 := FirstLeaves();
    Then(cat, s0, steps, s1, Register(1));
    steps := steps + [Register(1)];
    var s2 := Next(cat, s1, Register(1));
    Then(cat, s0, steps, s2, TrackKey(1, "t", KInt(1)));
    steps := steps + [TrackKey(1, "t", KInt(1))];
    var s3 := Next(cat, s2, TrackKey(1, "t", KInt(1)));
    TrackOne(KInt(1));
    s := ReadNothing(s0, steps, s3, 1, KInt(1));
    steps := steps + [Read(1, E, Points({KInt(1)}))];
  }

  lemma ReadNothing(s0: State, steps: seq<Step>, s: State, t: nat, k: DbKey) returns (s': State)
    requires Runs(OneTable(), s0, steps, s) && t in s.txs && s.txs[t] == Fresh(0).(tracked := map["t" := {k}])
    requires E in s.engines && s.engines[E] == map[]
    ensures Runs(OneTable(), s0, steps + [Read(t, E, Points({k}))], s')
    ensures s' == SetTx(s, t, s.txs[t].(seen := [Observation(E, Points({k}), map[])]))
  {
    hide Runs;
    Then(OneTable(), s0, steps, s, Read(t, E, Points({k})));
    s' := Next(OneTable(), s, Read(t, E, Points({k})));
    var o := Observation(E, Points({k}), Restrict(s.engines[E], Points({k})));
    assert o.seen == map[] && [] + [o] == [o];
    assert s'.txs[t].seen == [o];
  }

  /** Two more transactions commit, to key 1 and to key 3. */
  lemma OthersCommit() returns (steps: seq<Step>, s: State)
    ensures Runs(OneTable(), Opened(), steps, s) && Idle(s) && s.version == 2
    ensures s.leaving == map[0 := FoundNone] && s.txs == map[1 := Reader(), 2 := Fresh(0), 3 := Fresh(1)]
    ensures s.history == [KeyRecord(1, 1), KeyRecord(2, 3)]
    ensures |s.commits| == 2 && s.commits[0].buf == OneChange(KInt(1), ROW) && s.commits[1].buf == OneChange(KInt(3), ROW)
  {
    hide Runs, Retain;
    var s1: State, s2: State;
    steps, s1 := ReaderReads();
    steps, s2 := RegisterAndCommit(Opened(), steps, s1, 2, KInt(1));
    RetainedRecords();
    steps, s := RegisterAndCommit(Opened(), steps, s2, 3, KInt(3));
    assert s.commits[0] == s.commits[..1][0];
  }

  /** Now transaction 0 loads the version and prunes the record that transaction 1 needs. */
  lemma LateLoadPrunes() returns (steps: seq<Step>, s: State)
    ensures Initial(OneTable(), NoRows(), Opened()) && Runs(OneTable(), Opened(), steps, s)
    ensures !PruningSafe(s) && 1 in s.txs && s.txs[1] == Reader() && s.history == [KeyRecord(2, 3)]
    ensures Idle(s) && s.version == 2 && s.txs == map[1 := Reader(), 2 := Fresh(0), 3 := Fresh(1)]
    ensures |s.commits| == 2 && s.commits[0].buf == OneChange(KInt(1), ROW) && s.commits[1].buf == OneChange(KInt(3), ROW)
  {
    hide Runs, Retain;
    var cat, s0 := OneTable(), Opened();
    OpenedInitial();
    var s1: State;
    steps, s1 := OthersCommit();
    Then(cat, s0, steps, s1, LoadVersion(0));
    steps := steps + [LoadVersion(0)];
    var s2 := Next(cat, s1, LoadVersion(0));
    Then(cat, s0, steps, s2, Prune(0));
    steps := steps + [Prune(0)];
    s := Next(cat, s2, Prune(0));
    RetainedRecords();
    assert s.version - |s.history| > s.txs[1].start;
  }

  /** Transaction 1 then commits although the row it did not find was inserted before: the run of the
      code as written is not serializable in commit order. */
  lemma LateLoadBreaksSerializability() returns (steps: seq<Step>, s: State)
    ensures Initial(OneTable(), NoRows(), Opened()) && Runs(OneTable(), Opened(), steps, s)
    ensures !Serializable(OneTable(), NoRows(), s.commits, s.audits)
  {
    hide Runs, Retain;
    var s1: State;
    steps, s1 := LateLoadPrunes();
    var s2 := WriteOne(Opened(), steps, s1, 1, KInt(2));
    NoConflictLeft();
    ZeroIsLeast(s2.txs);
    steps, s := CommitOne(Opened(), steps + [Write(1, "t", KInt(2), Some(ROW))], s2, 1, KInt(2), ROW, 0);
    assert s.commits[..2] == s1.commits;
    StaleRead(s.commits);
  }

  lemma NoConflictLeft()
    ensures !Rejects([KeyRecord(2, 3)], 0, CommitFootprint(Reader().(buf := OneChange(KInt(2), ROW)), map["t" := {KInt(2)}]))
  {
    var keys, f := KeyRecord(2, 3).keys, CommitFootprint(Reader().(buf := OneChange(KInt(2), ROW)), map["t" := {KInt(2)}]);
    forall space, k | Touches(keys, space, k) ensures !Covers(f, space, k) {
    }
  }

  lemma LogicalSnoc(base: Tables, commits: seq<Commit>, c: Commit)
    ensures Logical(base, commits + [c]) == ApplyBuffer(Logical(base, commits), c.buf)
  {
    assert (commits + [c])[..|commits|] == commits;
  }

  lemma StaleRead(commits: seq<Commit>)
    requires |commits| == 3 && commits[0].buf == OneChange(KInt(1), ROW) && commits[1].buf == OneChange(KInt(3), ROW)
    requires commits[2].seen == Reader().seen
    ensures !SeenAt(OneTable(), NoRows(), commits, 2, commits[2].seen)
  {
    var ts := Logical(NoRows(), commits[..2]);
    var first := ApplyBuffer(NoRows(), OneChange(KInt(1), ROW));
    assert commits[..1] == [] + [commits[0]] && commits[..2] == commits[..1] + [commits[1]];
    LogicalSnoc(NoRows(), [], commits[0]);
    LogicalSnoc(NoRows(), commits[..1], commits[1]);
    assert Lookup(first["t"], KInt(1)) == Some(ROW);
    assert Lookup(ts["t"], KInt(1)) == Some(ROW);
    ApplyBufferOk(OneTable(), NoRows(), OneChange(KInt(1), ROW));
    ApplyBufferOk(OneTable(), first, OneChange(KInt(3), ROW));
    hide ApplyBuffer, Logical;
    RowStored(ts, KInt(1));
    assert commits[2].seen[0] == Observation(E, Points({KInt(1)}), map[]);
    assert Lookup(Restrict(Serial(OneTable(), NoRows(), commits, 2, E), Points({KInt(1)})), KInt(1)).Some?;
  }

  lemma RowStored(ts: Tables, k: DbKey)
    requires TablesOk(OneTable(), ts) && k in ts["t"]
    ensures IsEngine(OneTable(), E) && k in Contents(OneTable(), ts, E)
  {
    OneEngine(E);
  }
}
