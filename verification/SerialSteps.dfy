/**
 Serializability told by the steps of a run alone: which row a transaction's Write steps leave behind,
 which transactions finished, and what each Read step must have returned.
 */
module SerialSteps {
  import opened Values
  import opened Indexes
  import opened Stores
  import opened Transactions
  import opened Serializability
  import opened SerialRuns
  import opened RedoLog
  import opened Occ

  // ---------- Steps, one after another ----------

  lemma {:induction false} RunsEnd(cat: Catalog, s: State, steps: seq<Step>, s': State) returns (before: State)
    requires Runs(cat, s, steps, s') && steps != []
    ensures Runs(cat, s, steps[..|steps| - 1], before) && Enabled(cat, before, steps[|steps| - 1])
    ensures s' == Next(cat, before, steps[|steps| - 1])
    decreases |steps|
  {
    hide Enabled, Next;
    if |steps| == 1 {
      before := s;
      assert steps[1..] == [] && steps[..0] == [];
    } else {
      before := RunsEnd(cat, Next(cat, s, steps[0]), steps[1..], s');
      assert steps[..|steps| - 1][1..] == steps[1..][..|steps| - 2];
    }
  }

  lemma {:induction false} RunsPrefix(cat: Catalog, s: State, steps: seq<Step>, s': State, n: nat) returns (mid: State)
    requires Runs(cat, s, steps, s') && n <= |steps|
    ensures Runs(cat, s, steps[..n], mid) && Runs(cat, mid, steps[n..], s')
    decreases n
  {
    hide Enabled, Next;
    if n == 0 {
      mid := s;
      assert steps[0..] == steps && steps[..0] == [];
    } else {
      mid := RunsPrefix(cat, Next(cat, s, steps[0]), steps[1..], s', n - 1);
      assert steps[..n][1..] == steps[1..][..n - 1] && steps[1..][n - 1..] == steps[n..];
    }
  }

  lemma {:induction false} RunsOnce(cat: Catalog, s: State, steps: seq<Step>, a: State, b: State)
    requires Runs(cat, s, steps, a) && Runs(cat, s, steps, b)
    ensures a == b
    decreases |steps|
  {
    hide Enabled, Next;
    if steps != [] {
      RunsOnce(cat, Next(cat, s, steps[0]), steps[1..], a, b);
    }
  }

  lemma {:induction false} CarefulPrefix(cat: Catalog, s: State, steps: seq<Step>, n: nat)
    requires Careful(cat, s, steps) && n <= |steps|
    ensures Careful(cat, s, steps[..n])
    decreases n
  {
    hide Enabled, Next, Harmless;
    if n > 0 && Enabled(cat, s, steps[0]) {
      CarefulPrefix(cat, Next(cat, s, steps[0]), steps[1..], n - 1);
      assert steps[..n][1..] == steps[1..][..n - 1];
    }
  }

  /** The state that a careful run has reached, with the invariant. */
  lemma Reaches(cat: Catalog, base: Tables, s: State, steps: seq<Step>, s': State)
    requires Initial(cat, base, s) && Runs(cat, s, steps, s') && Careful(cat, s, steps)
    ensures Inv(cat, base, s')
  {
    InitialInv(cat, base, s);
    RunKeeps(cat, base, s, steps, s');
  }

  // ---------- Writes ----------

  /** The last change that t's Write steps make under a key since t registered, rolled back or finished. */
  function LastWrite(steps: seq<Step>, t: nat, table: string, k: DbKey): Option<Option<Row>>
  {
    if steps == [] then None
    else
      var front, last := steps[..|steps| - 1], steps[|steps| - 1];
      if last.t != t then LastWrite(front, t, table, k)
      else match last
        case Register(_) => None
        case Rollback(_) => None
        case Finish(_) => None
        case Write(_, name, key, change) => if name == table && key == k then Some(change) else LastWrite(front, t, table, k)
        case _ => LastWrite(front, t, table, k)
  }

  function BufferAt(buf: Buffer, table: string, k: DbKey): Option<Option<Row>>
  {
    if table in buf && k in buf[table] then Some(buf[table][k]) else None
  }

  /** A step changes no transaction but its own. */
  lemma OthersKept(cat: Catalog, s: State, step: Step, t: nat)
    requires Enabled(cat, s, step) && step.t != t
    ensures Lookup(Next(cat, s, step).txs, t) == Lookup(s.txs, t)
  {
    hide Retain, FetchedRows, WriteKeys, Rejects, NewestVersion, Batch, Tracks, FetchComplete, Restrict, IsMinStart;
  }

  predicate Commits(step: Step)
  {
    || step.BeginCommit? || step.FetchOld? || step.Prepare? || step.CheckReadOnly? || step.CheckSnapshot?
    || step.TakeLimit? || step.CheckDelta? || step.ApplyBatch?
  }

  /** Up to its Finish a commit moves its transaction from phase to phase and changes nothing else of it. */
  lemma CommitKept(cat: Catalog, s: State, step: Step)
    requires Enabled(cat, s, step) && Commits(step)
    ensures var s' := Next(cat, s, step);
            step.t in s.txs && step.t in s'.txs && s'.txs[step.t] == s.txs[step.t].(phase := s'.txs[step.t].phase)
  {
    hide Retain, FetchedRows, WriteKeys, Rejects, NewestVersion, Batch, Tracks, FetchComplete, Restrict, IsMinStart;
  }

  lemma QuietKept(cat: Catalog, s: State, step: Step)
    requires Enabled(cat, s, step) && step.t in Next(cat, s, step).txs
    requires step.Leave? || step.LoadVersion? || step.Prune? || step.TrackKey? || step.TrackRange? || step.Read?
    ensures step.t in s.txs && Next(cat, s, step).txs[step.t].buf == s.txs[step.t].buf
    ensures s.txs[step.t].seen <= Next(cat, s, step).txs[step.t].seen
  {
    hide Retain, Tracks, Restrict, IsMinStart;
  }

  lemma OwnKept(cat: Catalog, s: State, step: Step)
    requires Enabled(cat, s, step) && step.t in Next(cat, s, step).txs
    requires !step.Register? && !step.Rollback? && !step.Finish? && !step.Write?
    ensures step.t in s.txs && Next(cat, s, step).txs[step.t].buf == s.txs[step.t].buf
    ensures s.txs[step.t].seen <= Next(cat, s, step).txs[step.t].seen
  {
    hide Enabled, Next;
    if Commits(step) {
      CommitKept(cat, s, step);
    } else {
      QuietKept(cat, s, step);
    }
  }

  lemma OwnReset(cat: Catalog, s: State, step: Step)
    requires Enabled(cat, s, step) && (step.Register? || step.Rollback? || step.Finish?)
    ensures step.t in Next(cat, s, step).txs && Next(cat, s, step).txs[step.t].buf == map[]
  {
    hide Retain;
  }

  lemma OwnWrite(cat: Catalog, s: State, step: Step, table: string, k: DbKey)
    requires Enabled(cat, s, step) && step.Write?
    ensures step.t in s.txs && step.t in Next(cat, s, step).txs
    ensures BufferAt(Next(cat, s, step).txs[step.t].buf, table, k) ==
            if step.table == table && step.key == k then Some(step.change) else BufferAt(s.txs[step.t].buf, table, k)
  {
  }

  lemma OwnBuffer(cat: Catalog, s: State, step: Step, table: string, k: DbKey)
    requires Enabled(cat, s, step) && step.t in Next(cat, s, step).txs
    ensures var now := BufferAt(Next(cat, s, step).txs[step.t].buf, table, k);
            if step.Register? || step.Rollback? || step.Finish? then now == None
            else step.t in s.txs && now == if step.Write? && step.table == table && step.key == k then Some(step.change)
                                           else BufferAt(s.txs[step.t].buf, table, k)
  {
    hide Enabled, Next;
    if step.Register? || step.Rollback? || step.Finish? {
      OwnReset(cat, s, step);
    } else if step.Write? {
      OwnWrite(cat, s, step, table, k);
    } else {
      OwnKept(cat, s, step);
    }
  }

  lemma BufferStep(cat: Catalog, s: State, step: Step, t: nat, table: string, k: DbKey)
    requires Enabled(cat, s, step) && t in Next(cat, s, step).txs
    ensures var now := BufferAt(Next(cat, s, step).txs[t].buf, table, k);
            if step.t == t && (step.Register? || step.Rollback? || step.Finish?) then now == None
            else t in s.txs && now == if step.t == t && step.Write? && step.table == table && step.key == k then Some(step.change)
                                      else BufferAt(s.txs[t].buf, table, k)
  {
    hide Enabled, Next, BufferAt;
    if step.t == t {
      OwnBuffer(cat, s, step, table, k);
    } else {
      OthersKept(cat, s, step, t);
    }
  }

  /** In every run the buffer of a registered transaction holds, under each key, exactly its last change. */
  lemma {:induction false} EveryBufferHoldsItsWrites(cat: Catalog, s: State, steps: seq<Step>, s': State, t: nat,
      table: string, k: DbKey)
    requires s.txs == map[] && Runs(cat, s, steps, s') && t in s'.txs
    ensures BufferAt(s'.txs[t].buf, table, k) == LastWrite(steps, t, table, k)
    decreases |steps|
  {
    hide Enabled, Next, Runs, BufferAt;
    if steps == [] {
      NothingRun(cat, s, s');
    } else {
      var last := steps[|steps| - 1];
      var before := RunsEnd(cat, s, steps, s');
      BufferStep(cat, before, last, t, table, k);
      if !(last.t == t && (last.Register? || last.Rollback? || last.Finish?)) {
        EveryBufferHoldsItsWrites(cat, s, steps[..|steps| - 1], before, t, table, k);
      }
    }
  }

  lemma NothingRun(cat: Catalog, s: State, s': State)
    requires Runs(cat, s, [], s')
    ensures s' == s
  {
  }

  // ---------- The serial tables ----------

  /** The row after the finished transactions ran one by one: the change of the last one that wrote it. */
  function SerialRow(base: Tables, steps: seq<Step>, table: string, k: DbKey): Option<Row>
  {
    if steps == [] then (if table in base then Lookup(base[table], k) else None)
    else
      var front, last := steps[..|steps| - 1], steps[|steps| - 1];
      if last.Finish? && LastWrite(front, last.t, table, k).Some? then LastWrite(front, last.t, table, k).value
      else SerialRow(base, front, table, k)
  }

  lemma VersionStep(cat: Catalog, s: State, step: Step)
    requires Enabled(cat, s, step) && s.version <= |s.commits|
    ensures var s' := Next(cat, s, step);
            && s'.version == s.version + (if step.Finish? then 1 else 0)
            && s.commits <= s'.commits && (step.Finish? ==> s'.commits == s.commits)
  {
    hide Retain, FetchedRows, WriteKeys, Rejects, NewestVersion, Batch, Tracks, FetchComplete, Restrict;
  }

  lemma LogicalKeys(base: Tables, commits: seq<Commit>)
    ensures Logical(base, commits).Keys == base.Keys
  {
    if commits != [] {
      LogicalKeys(base, commits[..|commits| - 1]);
    }
  }

  lemma LogicalNext(base: Tables, commits: seq<Commit>, n: nat, table: string, k: DbKey)
    requires n < |commits| && table in base
    ensures table in Logical(base, commits[..n]) && table in Logical(base, commits[..n + 1])
    ensures Lookup(Logical(base, commits[..n + 1])[table], k) ==
            GetOr(BufferAt(commits[n].buf, table, k), Lookup(Logical(base, commits[..n])[table], k))
  {
    LogicalKeys(base, commits[..n]);
    LogicalKeys(base, commits[..n + 1]);
    assert commits[..n + 1][..n] == commits[..n];
  }

  lemma FinishedBuffer(cat: Catalog, base: Tables, s: State, t: nat)
    requires Inv(cat, base, s) && Enabled(cat, s, Finish(t))
    ensures s.writer == Some(t) && |s.commits| == s.version + 1
    ensures s.commits[s.version].tx == t && s.commits[s.version].buf == s.txs[t].buf && s.commits[s.version].seen == s.txs[t].seen
  {
    hide LogOk, HistoryOk, PruningSafe, EnginesOk, LimitsOk, LeavingOk, TxOk, Serializable;
  }

  lemma InvVersion(cat: Catalog, base: Tables, s: State)
    requires Inv(cat, base, s)
    ensures s.version <= |s.commits| && TablesOk(cat, base) && CatalogOk(cat)
    ensures s.writer.None? ==> |s.commits| == s.version
  {
    hide HistoryOk, PruningSafe, EnginesOk, LimitsOk, LeavingOk, TxOk, Serializable, TablesOk, CommitTrue;
  }

  /** The logical tables of the finished commits hold the serial rows. */
  lemma {:induction false} SerialRows(cat: Catalog, base: Tables, s: State, steps: seq<Step>, s': State, table: string,
      k: DbKey)
    requires Initial(cat, base, s) && Runs(cat, s, steps, s') && Careful(cat, s, steps) && table in base
    ensures s'.version <= |s'.commits| && table in Logical(base, s'.commits[..s'.version])
    ensures Lookup(Logical(base, s'.commits[..s'.version])[table], k) == SerialRow(base, steps, table, k)
    decreases |steps|
  {
    hide Enabled, Next, Runs, Careful, Inv, Initial, Logical, LastWrite;
    if steps == [] {
      NothingRun(cat, s, s');
      NothingCommitted(cat, base, s);
    } else {
      var n := |steps| - 1;
      var front, last := steps[..n], steps[n];
      var before := RunsEnd(cat, s, steps, s');
      CarefulPrefix(cat, s, steps, n);
      SerialRows(cat, base, s, front, before, table, k);
      VersionStep(cat, before, last);
      if last.Finish? {
        Reaches(cat, base, s, front, before);
        FinishedBuffer(cat, base, before, last.t);
        Registered(cat, before, last.t);
        NobodyYet(cat, base, s);
        EveryBufferHoldsItsWrites(cat, s, front, before, last.t, table, k);
        LogicalNext(base, before.commits, before.version, table, k);
      } else {
        assert s'.commits[..s'.version] == before.commits[..before.version];
      }
    }
  }

  lemma NothingCommitted(cat: Catalog, base: Tables, s: State)
    requires Initial(cat, base, s)
    ensures s.version == 0 && s.commits == [] && s.commits[..0] == [] && Logical(base, []) == base
  {
  }

  lemma NobodyYet(cat: Catalog, base: Tables, s: State)
    requires Initial(cat, base, s)
    ensures s.txs == map[]
  {
  }

  lemma Registered(cat: Catalog, s: State, t: nat)
    requires Enabled(cat, s, Finish(t))
    ensures t in s.txs
  {
  }

  /** Between commits every cell of every engine is that of the serial row: no write of a finished
      transaction is lost, and no other write is there. */
  lemma EveryWriteIsKept(cat: Catalog, base: Tables, s: State, steps: seq<Step>, s': State, e: EngineId, x: DbKey)
    requires Initial(cat, base, s) && Runs(cat, s, steps, s') && Careful(cat, s, steps) && s'.writer.None? && IsEngine(cat, e)
    ensures e in s'.engines && Lookup(s'.engines[e], x) == CellAt(cat, e, SerialRow(base, steps, e.table, PkIn(e, x)), x)
  {
    hide *;
    Reaches(cat, base, s, steps, s');
    InvVersion(cat, base, s');
    KnownTable(cat, base, e);
    EveryRunKeepsEnginesInStep(cat, base, s, steps, s', e);
    assert s'.commits[..s'.version] == s'.commits;
    SerialRows(cat, base, s, steps, s', e.table, PkIn(e, x));
    ContentsAt(cat, Logical(base, s'.commits), e, x);
  }

  // ---------- Reads ----------

  lemma WriterSeen(cat: Catalog, s: State, step: Step)
    requires Enabled(cat, s, step) && (step.Write? || step.Rollback? || step.Finish?)
    ensures step.t in s.txs && step.t in Next(cat, s, step).txs && Next(cat, s, step).txs[step.t].seen == s.txs[step.t].seen
  {
    hide Retain;
  }

  lemma OwnSeen(cat: Catalog, s: State, step: Step)
    requires Enabled(cat, s, step) && step.t in Next(cat, s, step).txs && !step.Register?
    ensures step.t in s.txs && s.txs[step.t].seen <= Next(cat, s, step).txs[step.t].seen
  {
    hide Enabled, Next;
    if step.Write? || step.Rollback? || step.Finish? {
      WriterSeen(cat, s, step);
    } else {
      OwnKept(cat, s, step);
    }
  }

  lemma SeenStep(cat: Catalog, s: State, step: Step, t: nat)
    requires Enabled(cat, s, step) && t in Next(cat, s, step).txs && step != Register(t)
    ensures t in s.txs && s.txs[t].seen <= Next(cat, s, step).txs[t].seen
  {
    hide Enabled, Next;
    if step.t == t {
      OwnSeen(cat, s, step);
    } else {
      OthersKept(cat, s, step, t);
    }
  }

  lemma ReadStep(cat: Catalog, s: State, t: nat, e: EngineId, sel: Selection)
    requires Enabled(cat, s, Read(t, e, sel))
    ensures e in s.engines && t in Next(cat, s, Read(t, e, sel)).txs
    ensures Observation(e, sel, Restrict(s.engines[e], sel)) in Next(cat, s, Read(t, e, sel)).txs[t].seen
  {
  }

  /** What a Read step returned stays on record until its transaction registers again. */
  lemma {:induction false} ReadRecorded(cat: Catalog, s: State, steps: seq<Step>, s': State, q: nat, mid: State, t: nat,
      e: EngineId, sel: Selection)
    requires Runs(cat, s, steps, s') && q < |steps| && steps[q] == Read(t, e, sel) && Runs(cat, s, steps[..q], mid)
    requires (forall i :: q < i < |steps| ==> steps[i] != Register(t)) && t in s'.txs
    ensures e in mid.engines && Observation(e, sel, Restrict(mid.engines[e], sel)) in s'.txs[t].seen
    decreases |steps|
  {
    hide Enabled, Next, Runs, Restrict;
    var n := |steps| - 1;
    var before := RunsEnd(cat, s, steps, s');
    if q == n {
      RunsOnce(cat, s, steps[..q], mid, before);
      ReadStep(cat, before, t, e, sel);
    } else {
      SeenStep(cat, before, steps[n], t);
      assert steps[..n][..q] == steps[..q];
      ReadRecorded(cat, s, steps[..n], before, q, mid, t, e, sel);
    }
  }

  /** One observation, at one cell, against the serial tables of the first n commits. */
  lemma SeenCell(cat: Catalog, base: Tables, s: State, n: nat, seen: seq<Observation>, o: Observation, x: DbKey)
    requires Inv(cat, base, s) && n <= |s.commits| && SeenAt(cat, base, s.commits, n, seen) && o in seen && Selects(o.sel, x)
    requires IsEngine(cat, o.engine)
    ensures o.engine.table in Logical(base, s.commits[..n])
    ensures Lookup(o.seen, x) == CellAt(cat, o.engine, Lookup(Logical(base, s.commits[..n])[o.engine.table], PkIn(o.engine, x)), x)
  {
    hide HistoryOk, PruningSafe, EnginesOk, LimitsOk, LeavingOk, TxOk, Serializable, WriterOk, CommitTrue, Contents, CellAt, TablesOk;
    LogicalOk(cat, base, s.commits, n);
    LogicalKeys(base, s.commits[..n]);
    KnownTable(cat, base, o.engine);
    ContentsAt(cat, Logical(base, s.commits[..n]), o.engine, x);
    var i :| 0 <= i < |seen| && seen[i] == o;
  }

  lemma KnownTable(cat: Catalog, base: Tables, e: EngineId)
    requires TablesOk(cat, base) && IsEngine(cat, e)
    ensures e.table in base
  {
  }

  lemma EngineExists(cat: Catalog, base: Tables, s: State, e: EngineId)
    requires Inv(cat, base, s) && e in s.engines
    ensures IsEngine(cat, e) && e.table in base
  {
    hide LogOk, HistoryOk, PruningSafe, LimitsOk, LeavingOk, TxOk, Serializable, WriterOk, Serial;
    LogBase(cat, base, s);
  }

  lemma LogBase(cat: Catalog, base: Tables, s: State)
    requires Inv(cat, base, s)
    ensures TablesOk(cat, base)
  {
    hide HistoryOk, PruningSafe, LimitsOk, LeavingOk, TxOk, Serializable, WriterOk, EnginesOk, CommitTrue;
  }

  lemma FinishSeen(cat: Catalog, base: Tables, s: State, t: nat)
    requires Inv(cat, base, s) && Enabled(cat, s, Finish(t))
    ensures t in s.txs && s.version < |s.commits| && SeenAt(cat, base, s.commits, s.version, s.txs[t].seen)
  {
    FinishedBuffer(cat, base, s, t);
    hide LogOk, HistoryOk, PruningSafe, EnginesOk, LimitsOk, LeavingOk, TxOk, WriterOk, SeenAt;
    assert SeenAt(cat, base, s.commits, s.version, s.commits[s.version].seen);
  }

  /** The last step of a prefix, and the state it was taken in. */
  lemma StepAt(cat: Catalog, base: Tables, s: State, steps: seq<Step>, s': State, p: nat) returns (at: State)
    requires Initial(cat, base, s) && Runs(cat, s, steps, s') && Careful(cat, s, steps) && p < |steps|
    ensures Runs(cat, s, steps[..p], at) && Careful(cat, s, steps[..p]) && Enabled(cat, at, steps[p]) && Inv(cat, base, at)
  {
    hide Enabled, Next, Inv, Initial;
    at := RunsPrefix(cat, s, steps, s', p);
    assert steps[p..][0] == steps[p];
    CarefulPrefix(cat, s, steps, p);
    Reaches(cat, base, s, steps[..p], at);
  }

  /**
   Serializability of every read. Whatever a finished transaction's Read step returned, from whichever
   moment and half-applied state, is at every selected key the cell of the serial row: the row after
   exactly the transactions that finished before it.
   */
  lemma EveryReadIsSerial(cat: Catalog, base: Tables, s: State, steps: seq<Step>, s': State, q: nat, p: nat, mid: State,
      x: DbKey)
    requires Initial(cat, base, s) && Runs(cat, s, steps, s') && Careful(cat, s, steps)
    requires q < p < |steps| && steps[q].Read? && steps[p] == Finish(steps[q].t) && Runs(cat, s, steps[..q], mid)
    requires (forall i :: q < i < p ==> steps[i] != Register(steps[q].t)) && Selects(steps[q].sel, x)
    ensures var e := steps[q].engine;
            && IsEngine(cat, e) && e in mid.engines
            && Lookup(mid.engines[e], x) == CellAt(cat, e, SerialRow(base, steps[..p], e.table, PkIn(e, x)), x)
  {
    hide Runs, Careful, Initial, Inv, Enabled, SeenAt, CellAt, Logical, IsEngine;
    var t, e, sel := steps[q].t, steps[q].engine, steps[q].sel;
    var at := StepAt(cat, base, s, steps, s', p);
    FinishSeen(cat, base, at, t);
    assert steps[..p][..q] == steps[..q] && steps[..p][q] == steps[q];
    ReadRecorded(cat, s, steps[..p], at, q, mid, t, e, sel);
    MidInv(cat, base, s, steps, q, mid);
    EngineExists(cat, base, mid, e);
    SeenCell(cat, base, at, at.version, at.txs[t].seen, Observation(e, sel, Restrict(mid.engines[e], sel)), x);
    SerialRows(cat, base, s, steps[..p], at, e.table, PkIn(e, x));
  }

  lemma MidInv(cat: Catalog, base: Tables, s: State, steps: seq<Step>, q: nat, mid: State)
    requires Initial(cat, base, s) && Careful(cat, s, steps) && q <= |steps| && Runs(cat, s, steps[..q], mid)
    ensures Inv(cat, base, mid)
  {
    CarefulPrefix(cat, s, steps, q);
    Reaches(cat, base, s, steps[..q], mid);
  }

  /** A read-only check that passes, and what the transaction had seen by then. */
  lemma AuditSeen(cat: Catalog, base: Tables, s: State, t: nat)
    requires Inv(cat, base, s) && Enabled(cat, s, CheckReadOnly(t)) && Next(cat, s, CheckReadOnly(t)).audits != s.audits
    ensures t in s.txs && s.version == |s.commits| && SeenAt(cat, base, s.commits, s.version, s.txs[t].seen)
  {
    InvVersion(cat, base, s);
    InvTx(cat, base, s, t);
    AuditScan(cat, base, s, t);
    ClearSeen(cat, base, s.commits, s.version, s.txs[t], map[]);
  }

  lemma AuditScan(cat: Catalog, base: Tables, s: State, t: nat)
    requires Inv(cat, base, s) && Enabled(cat, s, CheckReadOnly(t)) && Next(cat, s, CheckReadOnly(t)).audits != s.audits
    ensures ClearUpTo(s.commits, s.txs[t].start, s.version, Footprint(s.txs[t].tracked, s.txs[t].ranges, map[]))
  {
    hide LogOk, EnginesOk, LimitsOk, LeavingOk, TxOk, Serializable, WriterOk, Conflict;
    var tx := s.txs[t];
    HistoryScan(s.version, s.history, s.commits, tx.start, Footprint(tx.tracked, tx.ranges, map[]));
  }

  /** The same for a read-only transaction whose check passes. */
  lemma EveryCheckedReadIsSerial(cat: Catalog, base: Tables, s: State, steps: seq<Step>, s': State, q: nat, mid: State,
      x: DbKey)
    requires Initial(cat, base, s) && Runs(cat, s, steps, s') && Careful(cat, s, steps)
    requires q < |steps| && steps[q].Read? && Runs(cat, s, steps[..q], mid) && Selects(steps[q].sel, x)
    requires forall i :: q < i < |steps| ==> steps[i] != Register(steps[q].t)
    requires Enabled(cat, s', CheckReadOnly(steps[q].t)) && Next(cat, s', CheckReadOnly(steps[q].t)).audits != s'.audits
    ensures var e := steps[q].engine;
            && IsEngine(cat, e) && e in mid.engines
            && Lookup(mid.engines[e], x) == CellAt(cat, e, SerialRow(base, steps, e.table, PkIn(e, x)), x)
  {
    hide Runs, Careful, Initial, Inv, Enabled, Next, SeenAt, CellAt, Logical, IsEngine;
    var t, e, sel := steps[q].t, steps[q].engine, steps[q].sel;
    Reaches(cat, base, s, steps, s');
    AuditSeen(cat, base, s', t);
    ReadRecorded(cat, s, steps, s', q, mid, t, e, sel);
    MidInv(cat, base, s, steps, q, mid);
    EngineExists(cat, base, mid, e);
    SeenCell(cat, base, s', s'.version, s'.txs[t].seen, Observation(e, sel, Restrict(mid.engines[e], sel)), x);
    SerialRows(cat, base, s, steps, s', e.table, PkIn(e, x));
  }
}
