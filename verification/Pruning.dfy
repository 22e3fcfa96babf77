/**
 The commit history told by the steps of a run alone: which limits its prunes had, and that it holds
 exactly the records from the largest of them on.
 */
module Pruning {
  import opened Values
  import opened Indexes
  import opened Stores
  import opened Occ
  import opened Transactions
  import opened Serializability
  import opened SerialRuns
  import opened SerialSteps
  import opened ExactChecks

  // ---------- Limits ----------

  /** The least start version that t's commit took before its second check. */
  function LimitTaken(steps: seq<Step>, t: nat): Option<nat>
  {
    if steps == [] then None
    else
      var front, last := steps[..|steps| - 1], steps[|steps| - 1];
      if last.TakeLimit? && last.t == t then last.m else LimitTaken(front, t)
  }

  /** The least start version that t found when it left, or the version it loaded after finding none. */
  function LimitLeft(steps: seq<Step>, t: nat): Option<nat>
  {
    if steps == [] then None
    else
      var front, last := steps[..|steps| - 1], steps[|steps| - 1];
      if last.t != t then LimitLeft(front, t)
      else if last.Leave? then last.m
      else if last.LoadVersion? then Some(Finishes(front))
      else LimitLeft(front, t)
  }

  /** The oldest version that the history keeps: the largest limit so far. */
  function Floor(steps: seq<Step>): nat
  {
    if steps == [] then 1
    else
      var front, last := steps[..|steps| - 1], steps[|steps| - 1];
      if last.Finish? then Max(Floor(front), GetOr(LimitTaken(front, last.t), Finishes(front) + 1))
      else if last.Prune? then Max(Floor(front), GetOr(LimitLeft(front, last.t), 0))
      else Floor(front)
  }

  function Max(a: nat, b: nat): nat
  {
    if a < b then b else a
  }

  ghost predicate LimitsTold(s: State, steps: seq<Step>)
  {
    && (forall t :: t in s.txs && s.txs[t].phase.Limited? ==> s.txs[t].phase.limit == LimitTaken(steps, t))
    && (forall t :: t in s.txs && s.txs[t].phase.Applying? ==> s.txs[t].phase.limit == LimitTaken(steps, t))
    && (forall t :: t in s.leaving ==> LimitLeft(steps, t) == if s.leaving[t].FoundNone? then None else Some(s.leaving[t].limit))
    && (forall t :: t in s.leaving && s.leaving[t].Loaded? ==> s.leaving[t].limit <= s.version)
  }

  /** How a step changes its own transaction's limits. */
  lemma OwnLimit(cat: Catalog, s: State, step: Step)
    requires Enabled(cat, s, step) && step.t in Next(cat, s, step).txs
    ensures var phase' := Next(cat, s, step).txs[step.t].phase;
            if step.TakeLimit? then phase'.Limited? && phase'.limit == step.m
            else (phase'.Limited? ==> step.t in s.txs && s.txs[step.t].phase == phase') &&
                 (phase'.Applying? ==> step.t in s.txs && (s.txs[step.t].phase.Limited? || s.txs[step.t].phase.Applying?) &&
                                       s.txs[step.t].phase.limit == phase'.limit)
  {
    hide Retain, FetchedRows, WriteKeys, Rejects, NewestVersion, Batch, Tracks, FetchComplete, Restrict, IsMinStart;
  }

  lemma LeavingStep(cat: Catalog, s: State, step: Step, t: nat)
    requires Enabled(cat, s, step) && t in Next(cat, s, step).leaving
    ensures var now := Next(cat, s, step).leaving[t];
            if step.t == t && step.Leave? then now == (if step.m.Some? then Least(step.m.value) else FoundNone)
            else if step.t == t && step.LoadVersion? then now == Loaded(s.version)
            else t in s.leaving && now == s.leaving[t]
  {
    hide Retain, FetchedRows, WriteKeys, Rejects, NewestVersion, Batch, Tracks, FetchComplete, Restrict, IsMinStart;
  }

  lemma LimitsStep(cat: Catalog, s: State, steps: seq<Step>, step: Step)
    requires LimitsTold(s, steps) && Enabled(cat, s, step) && s.version == Finishes(steps)
    ensures LimitsTold(Next(cat, s, step), steps + [step])
  {
    hide Enabled, Next;
    var s', all := Next(cat, s, step), steps + [step];
    assert all[..|steps|] == steps;
    forall t | t in s'.txs && (s'.txs[t].phase.Limited? || s'.txs[t].phase.Applying?)
      ensures s'.txs[t].phase.limit == LimitTaken(all, t)
    {
      if t == step.t {
        OwnLimit(cat, s, step);
      } else {
        OthersKept(cat, s, step, t);
        assert Lookup(s.txs, t) == Some(s'.txs[t]);
      }
    }
    HistoryStep(cat, s, step);
    forall t | t in s'.leaving
      ensures LimitLeft(all, t) == if s'.leaving[t].FoundNone? then None else Some(s'.leaving[t].limit)
      ensures s'.leaving[t].Loaded? ==> s'.leaving[t].limit <= s'.version
    {
      LeavingStep(cat, s, step, t);
    }
  }

  lemma {:induction false} RunLimits(cat: Catalog, base: Tables, s: State, steps: seq<Step>, s': State)
    requires Initial(cat, base, s) && Runs(cat, s, steps, s') && Careful(cat, s, steps)
    ensures LimitsTold(s', steps)
    decreases |steps|
  {
    hide Enabled, Next, Runs, Careful, Inv, Initial;
    if steps == [] {
      NothingRun(cat, s, s');
      NobodyThere(cat, base, s);
    } else {
      var n := |steps| - 1;
      var before := RunsEnd(cat, s, steps, s');
      CarefulPrefix(cat, s, steps, n);
      RunLimits(cat, base, s, steps[..n], before);
      VersionCounts(cat, base, s, steps[..n], before);
      LimitsStep(cat, before, steps[..n], steps[n]);
      assert steps[..n] + [steps[n]] == steps;
    }
  }

  lemma NobodyThere(cat: Catalog, base: Tables, s: State)
    requires Initial(cat, base, s)
    ensures s.txs == map[] && s.leaving == map[] && s.history == []
  {
  }

  // ---------- The history ----------

  /** How many records there are from a version on. */
  function Kept(version: nat, floor: nat): nat
  {
    if floor <= version then version + 1 - floor else 0
  }

  lemma RetainKeeps(version: nat, history: seq<CommitRecord>, commits: seq<Commit>, floor: nat, limit: nat)
    requires HistoryOk(version, history, commits) && floor > 0 && |history| == Kept(version, floor)
    ensures |Retain(history, limit)| == Kept(version, Max(floor, limit))
  {
    RetainTail(history, version - |history| + 1, limit);
  }

  lemma HistoryStep(cat: Catalog, s: State, step: Step)
    requires Enabled(cat, s, step)
    ensures var s' := Next(cat, s, step);
            if step.Finish? then
              && step.t in s.txs && s.txs[step.t].phase.Applying? && s'.version == s.version + 1
              && s'.history == Retain(s.history + [CommitRecord(s.version + 1, s.txs[step.t].phase.plan.keys)],
                                      LimitOr(s.txs[step.t].phase.limit, s.version + 1))
            else if step.Prune? then
              && step.t in s.leaving && !s.leaving[step.t].FoundNone? && s'.version == s.version
              && s'.history == Retain(s.history, s.leaving[step.t].limit)
            else s'.history == s.history && s'.version == s.version
  {
    hide Retain, FetchedRows, WriteKeys, Rejects, NewestVersion, Batch, Tracks, FetchComplete, Restrict, IsMinStart;
  }

  /** With the record of the commit at hand the history is that of one version more. */
  lemma Published(cat: Catalog, base: Tables, s: State, t: nat)
    requires Inv(cat, base, s) && t in s.txs && s.txs[t].phase.Applying?
    ensures HistoryOk(s.version, s.history, s.commits)
    ensures HistoryOk(s.version + 1, s.history + [CommitRecord(s.version + 1, s.txs[t].phase.plan.keys)], s.commits)
    ensures s.txs[t].phase.limit.Some? && s.txs[t].phase.limit.value <= s.version
  {
    LimitBelow(cat, base, s, t);
    hide LogOk, EnginesOk, LimitsOk, LeavingOk, TxOk, Serializable, PruningSafe;
  }

  lemma LimitBelow(cat: Catalog, base: Tables, s: State, t: nat)
    requires Inv(cat, base, s) && t in s.txs && s.txs[t].phase.Applying?
    ensures s.txs[t].phase.limit.Some? && s.txs[t].phase.limit.value <= s.version
  {
    hide LogOk, HistoryOk, EnginesOk, LeavingOk, TxOk, WriterOk, Serializable;
  }

  lemma InvHistoryOk(cat: Catalog, base: Tables, s: State)
    requires Inv(cat, base, s)
    ensures HistoryOk(s.version, s.history, s.commits)
  {
    hide LogOk, HistoryOk, EnginesOk, LimitsOk, LeavingOk, TxOk, WriterOk, Serializable, PruningSafe;
  }

  lemma {:induction false} RunKept(cat: Catalog, base: Tables, s: State, steps: seq<Step>, s': State)
    requires Initial(cat, base, s) && Runs(cat, s, steps, s') && Careful(cat, s, steps)
    ensures 0 < Floor(steps) <= Finishes(steps) + 1 && s'.version == Finishes(steps)
    ensures |s'.history| == Kept(Finishes(steps), Floor(steps))
    decreases |steps|
  {
    hide Enabled, Next, Runs, Careful, Inv, Initial, HistoryOk;
    VersionCounts(cat, base, s, steps, s');
    if steps == [] {
      NothingRun(cat, s, s');
      NobodyThere(cat, base, s);
    } else {
      var n := |steps| - 1;
      var before := RunsEnd(cat, s, steps, s');
      CarefulPrefix(cat, s, steps, n);
      RunKept(cat, base, s, steps[..n], before);
      RunLimits(cat, base, s, steps[..n], before);
      Reaches(cat, base, s, steps[..n], before);
      HistoryStep(cat, before, steps[n]);
      InvHistoryOk(cat, base, before);
      if steps[n].Finish? {
        var tx := before.txs[steps[n].t];
        var more := before.history + [CommitRecord(before.version + 1, tx.phase.plan.keys)];
        Published(cat, base, before, steps[n].t);
        RetainKeeps(before.version + 1, more, before.commits, Floor(steps[..n]), LimitOr(tx.phase.limit, before.version + 1));
      } else if steps[n].Prune? {
        LeftBelow(cat, base, before, steps[..n], steps[n].t);
        RetainKeeps(before.version, before.history, before.commits, Floor(steps[..n]), before.leaving[steps[n].t].limit);
      }
    }
  }

  lemma LeftBelow(cat: Catalog, base: Tables, s: State, steps: seq<Step>, t: nat)
    requires Inv(cat, base, s) && LimitsTold(s, steps) && t in s.leaving && !s.leaving[t].FoundNone?
    ensures s.leaving[t].limit <= s.version
  {
    hide LogOk, HistoryOk, EnginesOk, LimitsOk, TxOk, WriterOk, Serializable, PruningSafe, LimitLeft, LimitTaken;
  }

  /**
   The history is exact. In every careful run it holds one record for each version from the largest
   limit of a prune so far up to the present version, in order, and no other.
   */
  lemma EveryHistoryIsExact(cat: Catalog, base: Tables, s: State, steps: seq<Step>, s': State)
    requires Initial(cat, base, s) && Runs(cat, s, steps, s') && Careful(cat, s, steps)
    ensures |s'.history| + Floor(steps) == Finishes(steps) + 1
    ensures forall i :: 0 <= i < |s'.history| ==> s'.history[i].version == Floor(steps) + i
  {
    hide Enabled, Next, Runs, Careful, Inv, Initial;
    RunKept(cat, base, s, steps, s');
    Reaches(cat, base, s, steps, s');
    InvHistoryOk(cat, base, s');
  }
}
