/** No run with any number of crashes loses, duplicates or half-applies a committed transaction. */
module RecoveryRuns {
  import opened Values
  import opened Indexes
  import opened Stores
  import opened RedoLog
  import opened Recovery

  // ---------- Committing ----------

  lemma LogWrittenGrows(cat: Catalog, base: Tables, log: seq<Record>, buf: Buffer)
    requires LogWritten(cat, base, log) && BufferOk(cat, buf)
    ensures var r := Prepared(buf, Some(LoggedPriors(TablesAt(base, log, |log|), buf)));
            && LogWritten(cat, base, log + [r])
            && TablesAt(base, log + [r], |log|) == TablesAt(base, log, |log|)
            && TablesAt(base, log + [r], |log| + 1) == ApplyBuffer(TablesAt(base, log, |log|), buf)
  {
    var r := Prepared(buf, Some(LoggedPriors(TablesAt(base, log, |log|), buf)));
    TablesAtPrefix(base, log, [r], |log|);
    assert (log + [r])[|log|] == r;
    hide LoggedPriors, TablesAt, BufferOk, TablesOk, CatalogOk;
    forall i | 0 <= i < |log + [r]|
      ensures BufferOk(cat, (log + [r])[i].changes)
      ensures (log + [r])[i].prior.Some? ==> (log + [r])[i].prior.value == LoggedPriors(TablesAt(base, log + [r], i), (log + [r])[i].changes)
    {
      TablesAtPrefix(base, log, [r], i);
    }
  }

  lemma CommitKeeps(cat: Catalog, initial: Tables, s: State, buf: Buffer)
    requires Inv(cat, initial, s) && Enabled(cat, s, Commit(buf))
    ensures Inv(cat, initial, Next(cat, s, Commit(buf)))
  {
    var s' := Next(cat, s, Commit(buf));
    var r := s'.log[|s.log|];
    LogWrittenGrows(cat, s.base, s.log, buf);
    assert s'.committed[..|s.committed|] == s.committed;
    forall e | e in s'.disks
      ensures DiskOk(cat, s'.base, s'.log, e, s'.disks[e])
      ensures LiveOk(cat, s'.base, s'.log, s'.mode, e, s'.disks[e])
    {
      assert LiveOk(cat, s.base, s.log, s.mode, e, s.disks[e]);
      DiskGrows(cat, s.base, s.log, r, e, s.disks[e]);
    }
  }

  lemma DiskGrows(cat: Catalog, base: Tables, log: seq<Record>, r: Record, e: EngineId, d: Disk)
    requires IsEngine(cat, e) && DiskOk(cat, base, log, e, d)
    ensures DiskOk(cat, base, log + [r], e, d)
  {
    LogGrows(cat, base, log, r, e, d.durable);
    forall i | 0 <= i < |d.unsynced| ensures Admissible(cat, base, log + [r], e, d.unsynced[i]) {
      AdmissibleGrows(cat, base, log, r, e, d.unsynced[i]);
    }
  }

  /** Pushing one admissible batch keeps every possible survivor repairable. */
  lemma PushKeepsDisk(cat: Catalog, base: Tables, log: seq<Record>, e: EngineId, d: Disk, delta: Delta)
    requires IsEngine(cat, e) && DiskOk(cat, base, log, e, d) && Admissible(cat, base, log, e, delta)
    ensures DiskOk(cat, base, log, e, Disk(d.durable, d.unsynced + [delta], Patch(d.live, delta)))
  {
    PushedLive(d, delta);
  }

  lemma CommitBatchAdmissible(cat: Catalog, base: Tables, log: seq<Record>, e: EngineId, prior: Tables)
    requires LogWritten(cat, base, log) && log != [] && IsEngine(cat, e)
    requires prior == AllPreimages(TablesAt(base, log, |log| - 1), log[|log| - 1].changes)
    ensures Admissible(cat, base, log, e, BatchFor(cat, log[|log| - 1], e, PriorOf(prior, e.table)))
  {
    var n := |log| - 1;
    var p := PriorOf(prior, e.table);
    TablesAtOk(cat, base, log, n);
    assert PriorsUsable(base, log, n, e.table, p);
    BatchRedoes(cat, base, log, n, e, p);
    RedoesAdmissible(cat, base, log, n, e, RedoBatch(cat, log[n], e, p));
  }

  lemma CommitBatchExact(cat: Catalog, base: Tables, log: seq<Record>, e: EngineId, prior: Tables, m: Engine)
    requires LogWritten(cat, base, log) && log != [] && IsEngine(cat, e)
    requires prior == AllPreimages(TablesAt(base, log, |log| - 1), log[|log| - 1].changes)
    requires Holds(cat, TablesAt(base, log, |log| - 1), e, m)
    ensures Holds(cat, TablesAt(base, log, |log|), e, Patch(m, BatchFor(cat, log[|log| - 1], e, PriorOf(prior, e.table))))
  {
    StoreStep(cat, TablesAt(base, log, |log| - 1), log[|log| - 1].changes, prior, e);
  }

  /** One engine takes one batch; the others keep their positions. */
  lemma PushKeeps(cat: Catalog, initial: Tables, s: State, m: Mode, e: EngineId, d: Delta)
    requires Inv(cat, initial, s) && e in s.disks && IsEngine(cat, e) && Admissible(cat, s.base, s.log, e, d)
    requires ShapeOk(s.base, s.log, m)
    requires LiveOk(cat, s.base, s.log, m, e, Pushed(s.disks, e, d)[e])
    requires forall x :: x in s.disks && x != e ==> LiveOk(cat, s.base, s.log, m, x, s.disks[x])
    ensures Inv(cat, initial, s.(disks := Pushed(s.disks, e, d), mode := m))
  {
    hide LogWritten, ShapeOk, LiveOk, DiskOk, Admissible;
    PushKeepsDisk(cat, s.base, s.log, e, s.disks[e], d);
  }

  lemma ApplyKeeps(cat: Catalog, initial: Tables, s: State, e: EngineId)
    requires Inv(cat, initial, s) && Enabled(cat, s, Apply(e))
    ensures Inv(cat, initial, Next(cat, s, Apply(e)))
  {
    hide LogWritten, AllPreimages, TablesAt, DiskOk, Admissible, Holds, BatchFor, PriorOf;
    var d := BatchFor(cat, s.log[|s.log| - 1], e, PriorOf(s.mode.prior, e.table));
    var m := s.mode.(pending := s.mode.pending - {e});
    assert LiveOk(cat, s.base, s.log, s.mode, e, s.disks[e]);
    CommitBatchAdmissible(cat, s.base, s.log, e, s.mode.prior);
    CommitBatchExact(cat, s.base, s.log, e, s.mode.prior, s.disks[e].live);
    forall x | x in s.disks && x != e ensures LiveOk(cat, s.base, s.log, m, x, s.disks[x]) {
      assert LiveOk(cat, s.base, s.log, s.mode, x, s.disks[x]);
    }
    PushKeeps(cat, initial, s, m, e, d);
  }

  // ---------- Syncing and truncating ----------

  lemma SurvivorOk(cat: Catalog, base: Tables, log: seq<Record>, e: EngineId, d: Disk, n: nat)
    requires IsEngine(cat, e) && DiskOk(cat, base, log, e, d) && n <= |d.unsynced|
    ensures DiskOk(cat, base, log, e, Survivor(d, n))
    ensures LiveOk(cat, base, log, Down, e, Survivor(d, n))
    ensures n == |d.unsynced| ==> Survivor(d, n) == Disk(d.live, [], d.live)
  {
    SurvivorsRepairable(cat, base, log, e, d, n);
  }

  lemma SyncKeeps(cat: Catalog, initial: Tables, s: State, e: EngineId)
    requires Inv(cat, initial, s) && Enabled(cat, s, Sync(e))
    ensures Inv(cat, initial, Next(cat, s, Sync(e)))
  {
    hide LogWritten, TablesAt, ShapeOk, DiskOk, Holds, Progress, Survivor;
    SurvivorOk(cat, s.base, s.log, e, s.disks[e], |s.disks[e].unsynced|);
    assert LiveOk(cat, s.base, s.log, s.mode, e, s.disks[e]);
  }

  /** A log may be dropped once every engine durably holds all of its records. */
  lemma DropLogKeeps(cat: Catalog, initial: Tables, s: State, s': State)
    requires LogOk(cat, initial, s) && DisksOk(cat, s) && AllSynced(s.disks)
    requires forall e :: e in s.disks ==> IsEngine(cat, e) && Holds(cat, TablesNow(s), e, s.disks[e].live)
    requires s' == s.(log := [], base := TablesNow(s), mode := Up)
    ensures Inv(cat, initial, s')
  {
    TablesAtOk(cat, s.base, s.log, |s.log|);
    forall e | e in s'.disks
      ensures DiskOk(cat, s'.base, s'.log, e, s'.disks[e])
      ensures LiveOk(cat, s'.base, s'.log, s'.mode, e, s'.disks[e])
    {
      assert DiskOk(cat, s.base, s.log, e, s.disks[e]);
      FreshStart(cat, s'.base, e);
    }
  }

  lemma TruncateKeeps(cat: Catalog, initial: Tables, s: State)
    requires Inv(cat, initial, s) && Enabled(cat, s, Truncate)
    ensures Inv(cat, initial, Next(cat, s, Truncate))
  {
    hide Contents, TablesOk, BufferOk, AllPreimages, ApplyBuffer, TablesAt, RedoBatch, Progress, Admissible, Redoes, LogWritten;
    forall e | e in s.disks ensures IsEngine(cat, e) && Holds(cat, TablesNow(s), e, s.disks[e].live) {
      assert LiveOk(cat, s.base, s.log, s.mode, e, s.disks[e]);
    }
    DropLogKeeps(cat, initial, s, Next(cat, s, Truncate));
  }

  // ---------- Crashing and replaying ----------

  lemma CrashKeeps(cat: Catalog, initial: Tables, s: State, keep: map<EngineId, nat>)
    requires Inv(cat, initial, s) && Enabled(cat, s, Crash(keep))
    ensures Inv(cat, initial, Next(cat, s, Crash(keep)))
  {
    hide LogWritten, TablesAt, DiskOk, LiveOk, Survivor;
    forall e | e in s.disks
      ensures DiskOk(cat, s.base, s.log, e, Survivor(s.disks[e], keep[e]))
      ensures LiveOk(cat, s.base, s.log, Down, e, Survivor(s.disks[e], keep[e]))
    {
      SurvivorOk(cat, s.base, s.log, e, s.disks[e], keep[e]);
    }
  }

  lemma BeginKeeps(cat: Catalog, initial: Tables, s: State)
    requires Inv(cat, initial, s) && Enabled(cat, s, BeginReplay)
    ensures Inv(cat, initial, Next(cat, s, BeginReplay))
  {
    hide Contents, TablesOk, BufferOk, AllPreimages, ApplyBuffer, TablesAt, RedoBatch, Progress, Admissible, Redoes, LogWritten;
    var s' := Next(cat, s, BeginReplay);
    forall e | e in s'.disks ensures LiveOk(cat, s.base, s.log, s'.mode, e, s.disks[e]) {
      assert LiveOk(cat, s.base, s.log, s.mode, e, s.disks[e]);
      assert DiskOk(cat, s.base, s.log, e, s.disks[e]);
    }
  }

  /** A mode change that moves no engine's position keeps a replay going. */
  lemma SameReachedKeeps(cat: Catalog, initial: Tables, s: State, m: Mode)
    requires Inv(cat, initial, s) && s.mode.Replaying? && m.Replaying? && ReplayShape(s.base, s.log, m)
    requires forall e :: e in s.disks ==> ReplayReached(m, e) == ReplayReached(s.mode, e)
    ensures Inv(cat, initial, s.(mode := m))
  {
    hide Contents, TablesOk, BufferOk, AllPreimages, ApplyBuffer, TablesAt, RedoBatch, Progress, Admissible, Redoes, LogWritten;
    forall e | e in s.disks ensures LiveOk(cat, s.base, s.log, m, e, s.disks[e]) {
      assert LiveOk(cat, s.base, s.log, s.mode, e, s.disks[e]);
    }
  }

  lemma ReplayTableKeeps(cat: Catalog, initial: Tables, s: State, t: string)
    requires Inv(cat, initial, s) && Enabled(cat, s, ReplayTable(t))
    ensures Inv(cat, initial, Next(cat, s, ReplayTable(t)))
  {
    PriorsForUsable(cat, s.base, s.log, s.mode.next, t, LiveEngines(s.disks));
    SameReachedKeeps(cat, initial, s, Next(cat, s, ReplayTable(t)).mode);
  }

  lemma ReplayApplyKeeps(cat: Catalog, initial: Tables, s: State, e: EngineId)
    requires Inv(cat, initial, s) && Enabled(cat, s, ReplayApply(e))
    ensures Inv(cat, initial, Next(cat, s, ReplayApply(e)))
  {
    hide LogWritten, TablesAt, DiskOk, Admissible, Progress, BatchFor, PriorsUsable;
    var n, w := s.mode.next, s.mode.current.value;
    var d := BatchFor(cat, s.log[n], e, w.prior);
    var m := s.mode.(current := Some(w.(pending := w.pending - {e})));
    assert LiveOk(cat, s.base, s.log, s.mode, e, s.disks[e]);
    ReplayBatch(cat, s.base, s.log, n, e, w.prior, s.disks[e].live);
    assert ReplayReached(s.mode, e) == n && ReplayReached(m, e) == n + 1;
    forall x | x in s.disks && x != e ensures LiveOk(cat, s.base, s.log, m, x, s.disks[x]) {
      assert LiveOk(cat, s.base, s.log, s.mode, x, s.disks[x]);
    }
    PushKeeps(cat, initial, s, m, e, d);
  }

  lemma ReplayBatch(cat: Catalog, base: Tables, log: seq<Record>, n: nat, e: EngineId, prior: Table, m: Engine)
    requires LogWritten(cat, base, log) && n < |log| && IsEngine(cat, e) && PriorsUsable(base, log, n, e.table, prior)
    requires Progress(cat, base, log, n, e, m)
    ensures Admissible(cat, base, log, e, BatchFor(cat, log[n], e, prior))
    ensures Progress(cat, base, log, n + 1, e, Patch(m, BatchFor(cat, log[n], e, prior)))
  {
    hide PriorsUsable, Progress, Admissible, Redoes;
    BatchRedoes(cat, base, log, n, e, prior);
    RedoesAdmissible(cat, base, log, n, e, RedoBatch(cat, log[n], e, prior));
    ProgressStep(cat, base, log, n, e, m, RedoBatch(cat, log[n], e, prior));
  }

  lemma ReplayTableDoneKeeps(cat: Catalog, initial: Tables, s: State)
    requires Inv(cat, initial, s) && Enabled(cat, s, ReplayTableDone)
    ensures Inv(cat, initial, Next(cat, s, ReplayTableDone))
  {
    hide Contents, TablesOk, BufferOk, AllPreimages, ApplyBuffer, TablesAt, RedoBatch, Progress, Admissible, Redoes, LogWritten;
    SameReachedKeeps(cat, initial, s, Next(cat, s, ReplayTableDone).mode);
  }

  lemma ReplayNextKeeps(cat: Catalog, initial: Tables, s: State)
    requires Inv(cat, initial, s) && Enabled(cat, s, ReplayNext)
    ensures Inv(cat, initial, Next(cat, s, ReplayNext))
  {
    hide Contents, TablesOk, BufferOk, AllPreimages, ApplyBuffer, TablesAt, RedoBatch, Progress, Admissible, Redoes, LogWritten;
    var s' := Next(cat, s, ReplayNext);
    var n := s.mode.next;
    forall e | e in s'.disks ensures LiveOk(cat, s.base, s.log, s'.mode, e, s.disks[e]) {
      assert LiveOk(cat, s.base, s.log, s.mode, e, s.disks[e]);
      if e.table !in s.log[n].changes {
        UntouchedProgress(cat, s.base, s.log, n, e, s.disks[e].live);
      }
    }
  }

  lemma EndReplayKeeps(cat: Catalog, initial: Tables, s: State)
    requires Inv(cat, initial, s) && Enabled(cat, s, EndReplay)
    ensures Inv(cat, initial, Next(cat, s, EndReplay))
  {
    forall e | e in s.disks ensures IsEngine(cat, e) && Holds(cat, TablesNow(s), e, s.disks[e].live) {
      assert LiveOk(cat, s.base, s.log, s.mode, e, s.disks[e]);
      ProgressEnd(cat, s.base, s.log, e, s.disks[e].live);
    }
    DropLogKeeps(cat, initial, s, Next(cat, s, EndReplay));
  }

  lemma DoneKeeps(cat: Catalog, initial: Tables, s: State)
    requires Inv(cat, initial, s) && Enabled(cat, s, Done)
    ensures Inv(cat, initial, Next(cat, s, Done))
  {
    hide Contents, TablesOk, BufferOk, AllPreimages, ApplyBuffer, TablesAt, RedoBatch, Progress, Admissible, Redoes, LogWritten;
    forall e | e in s.disks ensures LiveOk(cat, s.base, s.log, Up, e, s.disks[e]) {
      assert LiveOk(cat, s.base, s.log, s.mode, e, s.disks[e]);
    }
  }

  // ---------- Runs ----------

  lemma StepKeeps(cat: Catalog, initial: Tables, s: State, step: Step)
    requires Inv(cat, initial, s) && Enabled(cat, s, step)
    ensures Inv(cat, initial, Next(cat, s, step))
  {
    hide Inv;
    match step
    case Commit(buf) => CommitKeeps(cat, initial, s, buf);
    case Apply(e) => ApplyKeeps(cat, initial, s, e);
    case Done => DoneKeeps(cat, initial, s);
    case Sync(e) => SyncKeeps(cat, initial, s, e);
    case Truncate => TruncateKeeps(cat, initial, s);
    case Crash(keep) => CrashKeeps(cat, initial, s, keep);
    case BeginReplay => BeginKeeps(cat, initial, s);
    case ReplayTable(t) => ReplayTableKeeps(cat, initial, s, t);
    case ReplayApply(e) => ReplayApplyKeeps(cat, initial, s, e);
    case ReplayTableDone => ReplayTableDoneKeeps(cat, initial, s);
    case ReplayNext => ReplayNextKeeps(cat, initial, s);
    case EndReplay => EndReplayKeeps(cat, initial, s);
  }

  ghost predicate Initial(cat: Catalog, initial: Tables, s: State)
  {
    && CatalogOk(cat) && TablesOk(cat, initial)
    && s.log == [] && s.mode.Up? && s.base == initial && s.committed == []
    && (forall e :: e in s.disks <==> IsEngine(cat, e))
    && forall e :: e in s.disks ==> s.disks[e] == Disk(Contents(cat, initial, e), [], Contents(cat, initial, e))
  }

  ghost predicate Runs(cat: Catalog, s: State, steps: seq<Step>, s': State)
    decreases |steps|
  {
    if steps == [] then s' == s
    else Enabled(cat, s, steps[0]) && Runs(cat, Next(cat, s, steps[0]), steps[1..], s')
  }

  lemma {:induction false} RunKeeps(cat: Catalog, initial: Tables, s: State, steps: seq<Step>, s': State)
    requires Inv(cat, initial, s) && Runs(cat, s, steps, s')
    ensures Inv(cat, initial, s')
    decreases |steps|
  {
    if steps != [] {
      StepKeeps(cat, initial, s, steps[0]);
      RunKeeps(cat, initial, Next(cat, s, steps[0]), steps[1..], s');
    }
  }

  lemma InitialInv(cat: Catalog, initial: Tables, s: State)
    requires Initial(cat, initial, s)
    ensures Inv(cat, initial, s)
  {
    forall e | e in s.disks
      ensures DiskOk(cat, s.base, s.log, e, s.disks[e]) && LiveOk(cat, s.base, s.log, s.mode, e, s.disks[e])
    {
      FreshStart(cat, initial, e);
    }
  }
}
