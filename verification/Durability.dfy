/**
 Durability told by the steps of a run alone: which transactions were committed, what every engine
 then holds, and that every state can come up again.
 */
module Durability {
  import opened Values
  import opened Indexes
  import opened Stores
  import opened RedoLog
  import opened Recovery
  import opened RecoveryRuns

  // ---------- What the steps say ----------

  /** The buffers of the Commit steps, in order. */
  function Commits(steps: seq<Step>): seq<Buffer>
  {
    if steps == [] then []
    else
      var last := steps[|steps| - 1];
      Commits(steps[..|steps| - 1]) + if last.Commit? then [last.buf] else []
  }

  /** The row under a key after the last Commit step that changes it. */
  function RowAfter(initial: Tables, steps: seq<Step>, t: string, k: DbKey): Option<Row>
  {
    if steps == [] then (if t in initial then Lookup(initial[t], k) else None)
    else
      var last := steps[|steps| - 1];
      if last.Commit? && t in last.buf && k in last.buf[t] then last.buf[t][k]
      else RowAfter(initial, steps[..|steps| - 1], t, k)
  }

  lemma {:induction false} RunsEnd(cat: Catalog, s: State, steps: seq<Step>, s': State) returns (before: State)
    requires Runs(cat, s, steps, s') && steps != []
    ensures Runs(cat, s, steps[..|steps| - 1], before) && Enabled(cat, before, steps[|steps| - 1])
    ensures s' == Next(cat, before, steps[|steps| - 1])
    decreases |steps|
  {
    hide Enabled, Next;
    if |steps| == 1 {
      before := s;
      assert steps[1..] == [] && steps[..0] == [];
    } else {
      before := RunsEnd(cat, Next(cat, s, steps[0]), steps[1..], s');
      assert steps[..|steps| - 1][1..] == steps[1..][..|steps| - 2];
    }
  }

  /** The record of what was committed is that of the Commit steps. */
  lemma {:induction false} CommittedAreCommits(cat: Catalog, s: State, steps: seq<Step>, s': State)
    requires Runs(cat, s, steps, s')
    ensures s'.committed == s.committed + Commits(steps)
    decreases |steps|
  {
    if steps != [] {
      hide Enabled, Next, Runs;
      var before := RunsEnd(cat, s, steps, s');
      CommittedAreCommits(cat, s, steps[..|steps| - 1], before);
      CommittedStep(cat, before, steps[|steps| - 1]);
    }
  }

  lemma CommittedStep(cat: Catalog, s: State, step: Step)
    requires Enabled(cat, s, step)
    ensures Next(cat, s, step).committed == s.committed + if step.Commit? then [step.buf] else []
  {
    hide LoggedPriors, AllPreimages, TablesNow, Pushed, BatchFor, PriorsFor, Survivor;
  }

  lemma {:induction false} FoldRow(initial: Tables, steps: seq<Step>, t: string, k: DbKey)
    ensures Fold(initial, Commits(steps)).Keys == initial.Keys
    ensures t in initial ==> Lookup(Fold(initial, Commits(steps))[t], k) == RowAfter(initial, steps, t, k)
  {
    if steps != [] {
      var front, last := steps[..|steps| - 1], steps[|steps| - 1];
      FoldRow(initial, front, t, k);
      if last.Commit? {
        FoldSnoc(initial, Commits(front), last.buf);
      } else {
        assert Commits(steps) == Commits(front);
      }
    }
  }

  lemma FoldSnoc(initial: Tables, buffers: seq<Buffer>, buf: Buffer)
    ensures Fold(initial, buffers + [buf]) == ApplyBuffer(Fold(initial, buffers), buf)
  {
    assert (buffers + [buf])[..|buffers|] == buffers;
  }

  /**
   Durability. After any run of commits, engine syncs, checkpoints, crashes (each engine losing a
   tail of its own, at any moment, replay included) and replays, whenever the database is up every
   cell of every group and index engine is that of the row which the last Commit step changing it
   gave, and nothing else is there.
   */
  lemma EveryRunIsDurable(cat: Catalog, initial: Tables, s: State, steps: seq<Step>, s': State, e: EngineId)
    requires Initial(cat, initial, s) && Runs(cat, s, steps, s') && s'.mode.Up? && IsEngine(cat, e)
    ensures TablesOk(cat, Fold(initial, Commits(steps)))
    ensures e in s'.disks && s'.disks[e].live == Contents(cat, Fold(initial, Commits(steps)), e)
    ensures forall x :: Lookup(s'.disks[e].live, x) == CellAt(cat, e, RowAfter(initial, steps, e.table, PkIn(e, x)), x)
  {
    InitialInv(cat, initial, s);
    RunKeeps(cat, initial, s, steps, s');
    CommittedAreCommits(cat, s, steps, s');
    assert s'.committed == Commits(steps);
    assert LiveOk(cat, s'.base, s'.log, s'.mode, e, s'.disks[e]);
    hide Runs, Inv, LiveOk, Contents, Fold, CellAt, RowAfter, Commits;
    forall x ensures Lookup(s'.disks[e].live, x) == CellAt(cat, e, RowAfter(initial, steps, e.table, PkIn(e, x)), x) {
      ContentsAt(cat, Fold(initial, Commits(steps)), e, x);
      FoldRow(initial, steps, e.table, PkIn(e, x));
    }
  }

  /** The last of some batches that has the key, else what the engine held before them. */
  function LastBatch(before: Engine, batches: seq<Delta>, x: DbKey): Option<Stored>
  {
    if batches == [] then Lookup(before, x)
    else
      var last := batches[|batches| - 1];
      if x in last then last[x] else LastBatch(before, batches[..|batches| - 1], x)
  }

  lemma {:induction false} SurvivesAt(d: Disk, n: nat, x: DbKey)
    requires n <= |d.unsynced|
    ensures Lookup(Survives(d, n), x) == LastBatch(d.durable, d.unsynced[..n], x)
  {
    if n > 0 {
      SurvivesAt(d, n - 1, x);
      assert d.unsynced[..n][..n - 1] == d.unsynced[..n - 1];
    }
  }

  /** A crash takes the database down and leaves each engine its durable state and the first of its
      unsynced batches, as many as its own number says; the log stays. */
  lemma CrashCutsTails(cat: Catalog, s: State, keep: map<EngineId, nat>, e: EngineId, x: DbKey)
    requires Enabled(cat, s, Crash(keep)) && e in s.disks
    ensures var s' := Next(cat, s, Crash(keep));
            && s'.mode.Down? && s'.log == s.log && e in s'.disks && s'.disks[e].unsynced == []
            && Lookup(s'.disks[e].live, x) == Lookup(s'.disks[e].durable, x) ==
               LastBatch(s.disks[e].durable, s.disks[e].unsynced[..keep[e]], x)
  {
    SurvivesAt(s.disks[e], keep[e], x);
  }

  // ---------- No state is stuck ----------

  function ModeRank(m: Mode): nat
  {
    match m
    case Up => 0
    case Committing(_, _) => 1
    case Replaying(_, _, _) => 1
    case Down => 2
  }

  ghost function Unsynced(disks: map<EngineId, Disk>): set<EngineId>
  {
    set e | e in disks && disks[e].unsynced != []
  }

  /** Records, tables and engine batches that the present mode still owes. */
  ghost function Owed(s: State): (nat, nat, nat, nat)
  {
    match s.mode
    case Up => (0, 0, 0, 0)
    case Committing(_, pending) => (0, 0, 0, |pending|)
    case Down => (0, 0, 0, 0)
    case Replaying(next, done, current) =>
      if next >= |s.log| then (0, 0, 0, |Unsynced(s.disks)|)
      else (|s.log| - next, |s.log[next].changes.Keys - done|, if current.Some? then 0 else 1, if current.Some? then |current.value.pending| else 0)
  }

  /** Batches are owed to engines that exist. */
  predicate PendingOk(s: State)
  {
    && (s.mode.Committing? ==> s.mode.pending <= s.disks.Keys)
    && (s.mode.Replaying? && s.mode.current.Some? ==> s.mode.current.value.pending <= s.disks.Keys)
  }

  lemma PendingStep(cat: Catalog, s: State, step: Step)
    requires PendingOk(s) && Enabled(cat, s, step)
    ensures PendingOk(Next(cat, s, step))
  {
    hide LoggedPriors, AllPreimages, TablesNow, BatchFor, PriorsFor, Survivor, BufferOk;
  }

  lemma {:induction false} RunPending(cat: Catalog, s: State, steps: seq<Step>, s': State)
    requires PendingOk(s) && Runs(cat, s, steps, s')
    ensures PendingOk(s')
    decreases |steps|
  {
    if steps != [] {
      hide Enabled, Next, PendingOk;
      PendingStep(cat, s, steps[0]);
      RunPending(cat, Next(cat, s, steps[0]), steps[1..], s');
    }
  }

  ghost predicate Less4(a: (nat, nat, nat, nat), b: (nat, nat, nat, nat))
  {
    || a.0 < b.0 || (a.0 == b.0 && a.1 < b.1) || (a.0 == b.0 && a.1 == b.1 && a.2 < b.2)
    || (a.0 == b.0 && a.1 == b.1 && a.2 == b.2 && a.3 < b.3)
  }

  /** The step takes the database closer to being up. */
  ghost predicate Helps(cat: Catalog, s: State, step: Step)
  {
    && Enabled(cat, s, step) && !step.Commit? && !step.Crash?
    && var s' := Next(cat, s, step);
       ModeRank(s'.mode) < ModeRank(s.mode) || (ModeRank(s'.mode) == ModeRank(s.mode) && Less4(Owed(s'), Owed(s)))
  }

  lemma Shrinks<T>(a: set<T>, x: T)
    requires x in a
    ensures |a - {x}| < |a|
  {
  }

  lemma CommitHelps(cat: Catalog, s: State) returns (step: Step)
    requires s.mode.Committing? && s.log != [] && PendingOk(s)
    ensures Helps(cat, s, step)
  {
    hide BatchFor;
    if s.mode.pending == {} {
      step := Done;
    } else {
      var e :| e in s.mode.pending;
      step := Apply(e);
      Shrinks(s.mode.pending, e);
    }
  }

  lemma SyncHelps(cat: Catalog, s: State) returns (step: Step)
    requires s.mode.Replaying? && s.mode.next == |s.log|
    ensures Helps(cat, s, step)
  {
    hide TablesNow;
    if AllSynced(s.disks) {
      step := EndReplay;
    } else {
      var e :| e in s.disks && s.disks[e].unsynced != [];
      step := Sync(e);
      Shrinks(Unsynced(s.disks), e);
      assert Unsynced(Next(cat, s, step).disks) == Unsynced(s.disks) - {e};
    }
  }

  lemma TableHelps(cat: Catalog, s: State) returns (step: Step)
    requires s.mode.Replaying? && s.mode.next < |s.log| && s.mode.current.None?
    requires s.mode.done <= s.log[s.mode.next].changes.Keys <= cat.Keys
    ensures Helps(cat, s, step)
  {
    hide PriorsFor;
    var keys := s.log[s.mode.next].changes.Keys;
    if t :| t in keys && t !in s.mode.done {
      step := ReplayTable(t);
    } else {
      assert s.mode.done == keys;
      step := ReplayNext;
    }
  }

  lemma TableDoneHelps(cat: Catalog, s: State)
    requires s.mode.Replaying? && s.mode.next < |s.log| && s.mode.current.Some? && s.mode.current.value.pending == {}
    requires s.mode.current.value.table in s.log[s.mode.next].changes.Keys - s.mode.done
    ensures Helps(cat, s, ReplayTableDone)
  {
    var w, owed := s.mode.current.value, s.log[s.mode.next].changes.Keys - s.mode.done;
    Shrinks(owed, w.table);
    assert s.log[s.mode.next].changes.Keys - (s.mode.done + {w.table}) == owed - {w.table};
  }

  lemma BatchHelps(cat: Catalog, s: State, e: EngineId)
    requires s.mode.Replaying? && s.mode.next < |s.log| && s.mode.current.Some?
    requires e in s.mode.current.value.pending && e in s.disks
    ensures Helps(cat, s, ReplayApply(e))
  {
    hide BatchFor, Pushed;
    Shrinks(s.mode.current.value.pending, e);
  }

  lemma WritingHelps(cat: Catalog, s: State) returns (step: Step)
    requires s.mode.Replaying? && s.mode.next < |s.log| && s.mode.current.Some? && PendingOk(s)
    requires s.mode.current.value.table in s.log[s.mode.next].changes.Keys - s.mode.done
    ensures Helps(cat, s, step)
  {
    hide Helps;
    if s.mode.current.value.pending == {} {
      step := ReplayTableDone;
      TableDoneHelps(cat, s);
    } else {
      var e :| e in s.mode.current.value.pending;
      step := ReplayApply(e);
      BatchHelps(cat, s, e);
    }
  }

  lemma SomeStepHelps(cat: Catalog, initial: Tables, s: State) returns (step: Step)
    requires Inv(cat, initial, s) && PendingOk(s) && !s.mode.Up?
    ensures Helps(cat, s, step)
  {
    hide DisksOk, LiveOk, PriorsUsable, TablesAt, LoggedPriors, Helps;
    match s.mode
    case Committing(_, _) => step := CommitHelps(cat, s);
    case Down =>
      BeginHelps(cat, s);
      step := BeginReplay;
    case Replaying(next, _, current) =>
      if next == |s.log| {
        step := SyncHelps(cat, s);
      } else if current.Some? {
        step := WritingHelps(cat, s);
      } else {
        assert BufferOk(cat, s.log[next].changes);
        step := TableHelps(cat, s);
      }
  }

  lemma BeginHelps(cat: Catalog, s: State)
    requires s.mode.Down?
    ensures Helps(cat, s, BeginReplay)
  {
  }

  lemma {:induction false} ComesUp(cat: Catalog, initial: Tables, s: State) returns (steps: seq<Step>, s': State)
    requires Inv(cat, initial, s) && PendingOk(s)
    ensures Runs(cat, s, steps, s') && s'.mode.Up? && forall step :: step in steps ==> !step.Commit? && !step.Crash?
    decreases ModeRank(s.mode), Owed(s).0, Owed(s).1, Owed(s).2, Owed(s).3
  {
    if s.mode.Up? {
      steps, s' := [], s;
    } else {
      hide Inv, PendingOk, Enabled, Next, Owed;
      var step := SomeStepHelps(cat, initial, s);
      StepKeeps(cat, initial, s, step);
      PendingStep(cat, s, step);
      var rest: seq<Step>;
      rest, s' := ComesUp(cat, initial, Next(cat, s, step));
      steps := [step] + rest;
      assert steps[1..] == rest;
    }
  }

  /** From every state of every run, crashed ones and half-replayed ones included, the database can come
      up by its own steps, without a commit or another crash. */
  lemma EveryStateRecovers(cat: Catalog, initial: Tables, s: State, steps: seq<Step>, s': State)
    returns (more: seq<Step>, up: State)
    requires Initial(cat, initial, s) && Runs(cat, s, steps, s')
    ensures Runs(cat, s', more, up) && up.mode.Up? && forall step :: step in more ==> !step.Commit? && !step.Crash?
  {
    InitialInv(cat, initial, s);
    RunKeeps(cat, initial, s, steps, s');
    RunPending(cat, s, steps, s');
    more, up := ComesUp(cat, initial, s');
  }

  /** A running database accepts every buffer that fits its tables, and can bring it to all engines. */
  lemma EveryBufferCommits(cat: Catalog, initial: Tables, s: State, steps: seq<Step>, s': State, buf: Buffer)
    returns (more: seq<Step>, up: State)
    requires Initial(cat, initial, s) && Runs(cat, s, steps, s') && s'.mode.Up? && BufferOk(cat, buf)
    ensures Runs(cat, s', [Commit(buf)] + more, up) && up.mode.Up?
    ensures forall step :: step in more ==> !step.Commit? && !step.Crash?
  {
    InitialInv(cat, initial, s);
    RunKeeps(cat, initial, s, steps, s');
    RunPending(cat, s, steps, s');
    assert Enabled(cat, s', Commit(buf));
    hide Inv, PendingOk, Enabled, Next, Initial;
    StepKeeps(cat, initial, s', Commit(buf));
    PendingStep(cat, s', Commit(buf));
    more, up := ComesUp(cat, initial, Next(cat, s', Commit(buf)));
    assert ([Commit(buf)] + more)[1..] == more;
  }

  /** A running database can checkpoint: by syncs and one truncation it gets to an empty log, with every
      engine as it is and durable. */
  lemma {:induction false} EveryLogEmpties(cat: Catalog, s: State) returns (more: seq<Step>, done: State)
    requires s.mode.Up?
    ensures Runs(cat, s, more, done) && done.mode.Up? && done.log == [] && done.disks.Keys == s.disks.Keys
    ensures forall e :: e in s.disks ==> done.disks[e] == Disk(s.disks[e].live, [], s.disks[e].live) || done.disks[e] == s.disks[e]
    ensures AllSynced(done.disks) && forall step :: step in more ==> step.Sync? || step.Truncate?
    decreases Unsynced(s.disks)
  {
    hide TablesNow;
    if AllSynced(s.disks) {
      more, done := [Truncate], Next(cat, s, Truncate);
      assert more[1..] == [];
    } else {
      var e :| e in s.disks && s.disks[e].unsynced != [];
      var synced := Next(cat, s, Sync(e));
      assert Unsynced(synced.disks) == Unsynced(s.disks) - {e};
      var rest: seq<Step>;
      rest, done := EveryLogEmpties(cat, synced);
      more := [Sync(e)] + rest;
      assert more[1..] == rest;
    }
  }
}
