/**
 Validation told by the steps of a run alone: a check passes exactly when no transaction that finished
 since its own one registered changed a key that it tracked, scanned or writes.
 */
module ExactChecks {
  import opened Values
  import opened Indexes
  import opened Stores
  import opened Occ
  import opened Transactions
  import opened Serializability
  import opened SerialRuns
  import opened SerialSteps

  // ---------- What a transaction tracked ----------

  /** A TrackKey step of t for the key, since t registered. */
  predicate KeyTracked(steps: seq<Step>, t: nat, space: string, k: DbKey)
  {
    steps != [] &&
    var front, last := steps[..|steps| - 1], steps[|steps| - 1];
    last != Register(t) && (last == TrackKey(t, space, k) || KeyTracked(front, t, space, k))
  }

  /** A TrackRange step of t that covers the key, since t registered. */
  predicate RangeTracked(steps: seq<Step>, t: nat, space: string, k: DbKey)
  {
    steps != [] &&
    var front, last := steps[..|steps| - 1], steps[|steps| - 1];
    last != Register(t) &&
    ((last.TrackRange? && last.t == t && last.space == space && InRange(k, last.lo, last.hi)) || RangeTracked(front, t, space, k))
  }

  lemma ScansAdded(m: Ranges, name: string, lo: DbKey, hi: DbKey, space: string, k: DbKey)
    ensures Scans(AddRange(m, name, lo, hi), space, k) <==> Scans(m, space, k) || (name == space && InRange(k, lo, hi))
  {
    hide InRange;
    var m' := AddRange(m, name, lo, hi);
    if name == space {
      var was := if space in m then m[space] else [];
      assert m'[space] == was + [(lo, hi)];
      assert m'[space][|was|] == (lo, hi);
      if Scans(m, space, k) {
        var i :| 0 <= i < |was| && InRange(k, was[i].0, was[i].1);
        assert m'[space][i] == was[i];
      }
    }
  }

  /** The tracked keys and ranges change by the transaction's own track steps only. */
  lemma OwnTracks(cat: Catalog, s: State, step: Step)
    requires Enabled(cat, s, step) && step.t in Next(cat, s, step).txs
    ensures var tx' := Next(cat, s, step).txs[step.t];
            if step.Register? then tx'.tracked == map[] && tx'.ranges == map[] && tx'.start == s.version
            else step.t in s.txs && var tx := s.txs[step.t];
              && tx'.tracked == (if step.TrackKey? then AddKey(tx.tracked, step.space, step.key) else tx.tracked)
              && tx'.ranges == (if step.TrackRange? then AddRange(tx.ranges, step.space, step.lo, step.hi) else tx.ranges)
              && tx'.start == tx.start
  {
    hide Enabled, Next;
    if Commits(step) {
      CommitKept(cat, s, step);
    } else {
      OtherTracks(cat, s, step);
    }
  }

  lemma OtherTracks(cat: Catalog, s: State, step: Step)
    requires Enabled(cat, s, step) && !Commits(step) && step.t in Next(cat, s, step).txs
    ensures var tx' := Next(cat, s, step).txs[step.t];
            if step.Register? then tx'.tracked == map[] && tx'.ranges == map[] && tx'.start == s.version
            else step.t in s.txs && var tx := s.txs[step.t];
              && tx'.tracked == (if step.TrackKey? then AddKey(tx.tracked, step.space, step.key) else tx.tracked)
              && tx'.ranges == (if step.TrackRange? then AddRange(tx.ranges, step.space, step.lo, step.hi) else tx.ranges)
              && tx'.start == tx.start
  {
    hide Retain, Tracks, Restrict, IsMinStart, AddKey, AddRange;
  }

  lemma {:induction false} EveryTrackIsRecorded(cat: Catalog, s: State, steps: seq<Step>, s': State, t: nat, space: string,
      k: DbKey)
    requires s.txs == map[] && Runs(cat, s, steps, s') && t in s'.txs
    ensures Touches(s'.txs[t].tracked, space, k) <==> KeyTracked(steps, t, space, k)
    ensures Scans(s'.txs[t].ranges, space, k) <==> RangeTracked(steps, t, space, k)
    decreases |steps|
  {
    hide Enabled, Next, Runs, InRange, AddRange, Scans;
    if steps == [] {
      NothingRun(cat, s, s');
    } else {
      var last := steps[|steps| - 1];
      var before := RunsEnd(cat, s, steps, s');
      if last.t == t {
        OwnTracks(cat, before, last);
      } else {
        OthersKept(cat, before, last, t);
      }
      if last == Register(t) {
        NoRanges(space, k);
      } else {
        EveryTrackIsRecorded(cat, s, steps[..|steps| - 1], before, t, space, k);
        if last.TrackRange? && last.t == t {
          ScansAdded(before.txs[t].ranges, last.space, last.lo, last.hi, space, k);
        }
      }
    }
  }

  lemma NoRanges(space: string, k: DbKey)
    ensures !Scans(map[], space, k)
  {
  }

  // ---------- Versions count finished transactions ----------

  function Finishes(steps: seq<Step>): nat
  {
    if steps == [] then 0 else Finishes(steps[..|steps| - 1]) + if steps[|steps| - 1].Finish? then 1 else 0
  }

  lemma {:induction false} VersionCounts(cat: Catalog, base: Tables, s: State, steps: seq<Step>, s': State)
    requires Initial(cat, base, s) && Runs(cat, s, steps, s') && Careful(cat, s, steps)
    ensures s'.version == Finishes(steps) <= |s'.commits|
    decreases |steps|
  {
    hide Enabled, Next, Runs, Careful, Inv, Initial;
    if steps == [] {
      NothingRun(cat, s, s');
      NothingCommitted(cat, base, s);
    } else {
      var n := |steps| - 1;
      var before := RunsEnd(cat, s, steps, s');
      CarefulPrefix(cat, s, steps, n);
      VersionCounts(cat, base, s, steps[..n], before);
      VersionStep(cat, before, steps[n]);
      Reaches(cat, base, s, steps, s');
      InvVersion(cat, base, s');
    }
  }

  lemma {:induction false} FinishesGrow(steps: seq<Step>, m: nat, n: nat)
    requires m <= n <= |steps|
    ensures Finishes(steps[..m]) <= Finishes(steps[..n])
    ensures (exists i :: m <= i < n && steps[i].Finish?) <==> Finishes(steps[..m]) < Finishes(steps[..n])
    decreases n
  {
    if m < n {
      assert steps[..n][..n - 1] == steps[..n - 1];
      FinishesGrow(steps, m, n - 1);
    }
  }

  /** Every finished commit has its Finish step. */
  lemma {:induction false} FinishOf(steps: seq<Step>, n: nat, j: nat) returns (q: nat)
    requires n <= |steps| && j < Finishes(steps[..n])
    ensures q < n && steps[q].Finish? && Finishes(steps[..q]) == j
    decreases n
  {
    assert n > 0;
    assert steps[..n][..n - 1] == steps[..n - 1];
    if j < Finishes(steps[..n - 1]) {
      q := FinishOf(steps, n - 1, j);
    } else {
      q := n - 1;
    }
  }

  /** No Register step of t from position q on. */
  predicate RegisteredBy(steps: seq<Step>, t: nat, q: nat)
  {
    forall i :: q <= i < |steps| ==> steps[i] != Register(t)
  }

  lemma RegisteredByFront(steps: seq<Step>, t: nat, q: nat)
    requires steps != [] && q < |steps|
    ensures RegisteredBy(steps, t, q) <==> RegisteredBy(steps[..|steps| - 1], t, q) && steps[|steps| - 1] != Register(t)
  {
  }

  /** A transaction's start version counts the transactions that finished before it registered. */
  lemma {:induction false} StartCounts(cat: Catalog, base: Tables, s: State, steps: seq<Step>, s': State, t: nat, q: nat)
    requires Initial(cat, base, s) && Runs(cat, s, steps, s') && Careful(cat, s, steps) && t in s'.txs
    requires q < |steps| && steps[q].Finish?
    ensures RegisteredBy(steps, t, q) <==> s'.txs[t].start <= Finishes(steps[..q])
    decreases |steps|
  {
    hide Enabled, Next, Runs, Careful, Inv, Initial, RegisteredBy;
    var n := |steps| - 1;
    var last := steps[n];
    var before := RunsEnd(cat, s, steps, s');
    CarefulPrefix(cat, s, steps, n);
    VersionCounts(cat, base, s, steps[..n], before);
    RegisteredByFront(steps, t, q);
    if last.t == t {
      OwnTracks(cat, before, last);
    } else {
      OthersKept(cat, before, last, t);
    }
    if last == Register(t) {
      assert q < n;
      FinishBelow(steps, q, n);
    } else if q == n {
      NoneLeft(steps, t, q);
      Reaches(cat, base, s, steps[..n], before);
      StartReached(cat, base, before, t);
    } else {
      assert steps[..n][..q] == steps[..q];
      StartCounts(cat, base, s, steps[..n], before, t, q);
    }
  }

  lemma FinishBelow(steps: seq<Step>, q: nat, n: nat)
    requires q < n <= |steps| && steps[q].Finish?
    ensures Finishes(steps[..q]) < Finishes(steps[..n])
  {
    FinishesGrow(steps, q, n);
  }

  lemma NoneLeft(steps: seq<Step>, t: nat, q: nat)
    requires q + 1 == |steps| && steps[q] != Register(t)
    ensures RegisteredBy(steps, t, q)
  {
  }

  lemma StartReached(cat: Catalog, base: Tables, s: State, t: nat)
    requires Inv(cat, base, s) && t in s.txs
    ensures s.txs[t].start <= s.version
  {
    hide LogOk, HistoryOk, EnginesOk, LimitsOk, LeavingOk, TxOk, WriterOk, Serializable;
  }

  // ---------- What a transaction declares ----------

  /** With the steps so far, t's writes change the key: as a primary key of the table, or as an index
      key that a changed row has before or after. */
  ghost predicate Declares(cat: Catalog, base: Tables, steps: seq<Step>, t: nat, space: string, k: DbKey)
  {
    LastWrite(steps, t, space, k).Some? || exists table, index :: DeclaresEntry(cat, base, steps, t, table, index, space, k)
  }

  predicate DeclaresEntry(cat: Catalog, base: Tables, steps: seq<Step>, t: nat, table: string, index: string, space: string,
      k: DbKey)
  {
    && table in cat && index in cat[table].indexes && SpaceOf(Index(table, index)) == space
    && LastWrite(steps, t, table, PkOf(k)).Some?
    && (EntryAt(cat[table].indexes[index], SerialRow(base, steps, table, PkOf(k)), k).Some? ||
        EntryAt(cat[table].indexes[index], LastWrite(steps, t, table, PkOf(k)).value, k).Some?)
  }

  /** The keys of a buffer over true old rows are those that its writes declare. */
  lemma DeclaredKeys(cat: Catalog, base: Tables, steps: seq<Step>, t: nat, buf: Buffer, ts: Tables, space: string, k: DbKey)
    requires BufferOk(cat, buf) && ts.Keys == cat.Keys == base.Keys
    requires forall table, key :: BufferAt(buf, table, key) == LastWrite(steps, t, table, key)
    requires forall table, key :: table in base ==> Lookup(ts[table], key) == SerialRow(base, steps, table, key)
    ensures buf.Keys <= AllPreimages(ts, buf).Keys
    ensures Touches(WriteKeys(cat, buf, AllPreimages(ts, buf)), space, k) <==> Declares(cat, base, steps, t, space, k)
  {
    hide EntryChanges, DeclaresEntry, LastWrite, SerialRow, WriteKeys;
    var prior := AllPreimages(ts, buf);
    assert prior.Keys == buf.Keys;
    WriteKeysExactly(cat, buf, prior, space, k);
    assert BufferAt(buf, space, k) == LastWrite(steps, t, space, k);
    forall table, index
      ensures DeclaresEntry(cat, base, steps, t, table, index, space, k) <==> EntryChanges(cat, buf, prior, table, index, space, k)
    {
      DeclaredEntry(cat, base, steps, t, buf, ts, table, index, space, k);
    }
  }

  lemma DeclaredEntry(cat: Catalog, base: Tables, steps: seq<Step>, t: nat, buf: Buffer, ts: Tables, table: string,
      index: string, space: string, k: DbKey)
    requires BufferOk(cat, buf) && ts.Keys == cat.Keys == base.Keys && AllPreimages(ts, buf).Keys == buf.Keys
    requires BufferAt(buf, table, PkOf(k)) == LastWrite(steps, t, table, PkOf(k))
    requires table in base ==> Lookup(ts[table], PkOf(k)) == SerialRow(base, steps, table, PkOf(k))
    ensures DeclaresEntry(cat, base, steps, t, table, index, space, k) <==>
            EntryChanges(cat, buf, AllPreimages(ts, buf), table, index, space, k)
  {
    hide EntryAt, LastWrite, SerialRow;
    if table in buf && PkOf(k) in buf[table] {
      assert Lookup(AllPreimages(ts, buf)[table], PkOf(k)) == Lookup(ts[table], PkOf(k));
    }
  }

  // ---------- Clashes ----------

  /** The transaction that finishes at q, after t registered, changed a key that t tracked, scanned or writes. */
  ghost predicate ClashesAt(cat: Catalog, base: Tables, steps: seq<Step>, t: nat, q: nat)
  {
    && q < |steps| && steps[q].Finish? && RegisteredBy(steps, t, q)
    && exists space, k :: Declares(cat, base, steps[..q], steps[q].t, space, k) && Depends(cat, base, steps, t, space, k)
  }

  ghost predicate Depends(cat: Catalog, base: Tables, steps: seq<Step>, t: nat, space: string, k: DbKey)
  {
    KeyTracked(steps, t, space, k) || RangeTracked(steps, t, space, k) || Declares(cat, base, steps, t, space, k)
  }

  ghost predicate Clashes(cat: Catalog, base: Tables, steps: seq<Step>, t: nat)
  {
    exists q: nat :: ClashesAt(cat, base, steps, t, q)
  }

  /** What the buffers and tables of a reached state hold, told by the steps. */
  lemma StateTold(cat: Catalog, base: Tables, s: State, steps: seq<Step>, s': State, t: nat)
    requires Initial(cat, base, s) && Runs(cat, s, steps, s') && Careful(cat, s, steps) && t in s'.txs
    ensures BufferOk(cat, s'.txs[t].buf) && s'.version <= |s'.commits|
    ensures Logical(base, s'.commits[..s'.version]).Keys == cat.Keys == base.Keys
    ensures forall table, key :: BufferAt(s'.txs[t].buf, table, key) == LastWrite(steps, t, table, key)
    ensures forall table, key :: table in base ==>
      Lookup(Logical(base, s'.commits[..s'.version])[table], key) == SerialRow(base, steps, table, key)
  {
    hide Runs, Careful, Initial, Inv, Logical, BufferAt, LastWrite, SerialRow, BufferOk;
    Reaches(cat, base, s, steps, s');
    InvVersion(cat, base, s');
    InvTx(cat, base, s', t);
    BufferFits(cat, base, s', t);
    NobodyYet(cat, base, s);
    LogicalKeys(base, s'.commits[..s'.version]);
    forall table, key ensures BufferAt(s'.txs[t].buf, table, key) == LastWrite(steps, t, table, key) {
      EveryBufferHoldsItsWrites(cat, s, steps, s', t, table, key);
    }
    forall table, key | table in base
      ensures Lookup(Logical(base, s'.commits[..s'.version])[table], key) == SerialRow(base, steps, table, key)
    {
      SerialRows(cat, base, s, steps, s', table, key);
    }
  }

  lemma BufferFits(cat: Catalog, base: Tables, s: State, t: nat)
    requires t in s.txs && TxOk(cat, base, s.commits, s.version, s.txs[t])
    ensures BufferOk(cat, s.txs[t].buf)
  {
    hide PhaseOk, ObservationOk, Tracked, BufferOk;
  }

  /** The keys of commit number Finishes(steps[..q]) are those that the writes finished at q declare. */
  lemma CommitDeclares(cat: Catalog, base: Tables, s: State, steps: seq<Step>, s': State, q: nat, space: string, k: DbKey)
    requires Initial(cat, base, s) && Runs(cat, s, steps, s') && Careful(cat, s, steps) && q < |steps| && steps[q].Finish?
    ensures Finishes(steps[..q]) < |s'.commits|
    ensures Touches(s'.commits[Finishes(steps[..q])].keys, space, k) <==> Declares(cat, base, steps[..q], steps[q].t, space, k)
  {
    hide Runs, Careful, Initial, Inv, Enabled, Declares, Touches;
    var at := StepAt(cat, base, s, steps, s', q);
    var t := steps[q].t;
    FinishedBuffer(cat, base, at, t);
    Registered(cat, at, t);
    VersionCounts(cat, base, s, steps[..q], at);
    StateTold(cat, base, s, steps[..q], at, t);
    TrueKeys(cat, base, at);
    DeclaredKeys(cat, base, steps[..q], t, at.txs[t].buf, Logical(base, at.commits[..at.version]), space, k);
    CommitsGrow(cat, s, steps, s', q, at);
  }

  lemma TrueKeys(cat: Catalog, base: Tables, s: State)
    requires Inv(cat, base, s) && s.version < |s.commits|
    ensures var c, ts := s.commits[s.version], Logical(base, s.commits[..s.version]);
            c.buf.Keys <= cat.Keys && c.buf.Keys <= AllPreimages(ts, c.buf).Keys && c.keys == WriteKeys(cat, c.buf, AllPreimages(ts, c.buf))
  {
    hide HistoryOk, PruningSafe, EnginesOk, LimitsOk, LeavingOk, TxOk, WriterOk, Serializable, WriteKeys, Logical;
    assert CommitTrue(cat, base, s.commits, s.version);
  }

  /** Commits are never taken back. */
  lemma {:induction false} CommitsGrow(cat: Catalog, s: State, steps: seq<Step>, s': State, q: nat, at: State)
    requires Runs(cat, s, steps, s') && q <= |steps| && Runs(cat, s, steps[..q], at)
    ensures at.commits <= s'.commits
    decreases |steps|
  {
    hide Runs, Enabled, Next;
    if q == |steps| {
      assert steps[..q] == steps;
      RunsOnce(cat, s, steps, at, s');
    } else {
      var n := |steps| - 1;
      var before := RunsEnd(cat, s, steps, s');
      assert steps[..n][..q] == steps[..q];
      CommitsGrow(cat, s, steps[..n], before, q, at);
      CommitsStep(cat, before, steps[n]);
    }
  }

  lemma CommitsStep(cat: Catalog, s: State, step: Step)
    requires Enabled(cat, s, step)
    ensures s.commits <= Next(cat, s, step).commits
  {
    hide Retain, FetchedRows, WriteKeys, Rejects, NewestVersion, Batch, Tracks, FetchComplete, Restrict, IsMinStart;
  }

  ghost predicate HasFootprint(cat: Catalog, base: Tables, s: State, t: nat)
  {
    t in s.txs && s.txs[t].buf.Keys <= cat.Keys && s.txs[t].buf.Keys <= AllPreimages(Logical(base, s.commits), s.txs[t].buf).Keys
  }

  /** The footprint of a transaction with the keys that its writes truly change. */
  ghost function TrueFootprint(cat: Catalog, base: Tables, s: State, t: nat): Footprint
    requires HasFootprint(cat, base, s, t)
  {
    CommitFootprint(s.txs[t], WriteKeys(cat, s.txs[t].buf, AllPreimages(Logical(base, s.commits), s.txs[t].buf)))
  }

  lemma FootprintTold(cat: Catalog, base: Tables, s: State, steps: seq<Step>, s': State, t: nat, space: string, k: DbKey)
    requires Initial(cat, base, s) && Runs(cat, s, steps, s') && Careful(cat, s, steps) && t in s'.txs && s'.writer.None?
    ensures HasFootprint(cat, base, s', t)
    ensures Covers(TrueFootprint(cat, base, s', t), space, k) <==> Depends(cat, base, steps, t, space, k)
  {
    hide Runs, Careful, Initial, Inv, Declares, Touches, Scans, KeyTracked, RangeTracked, WriteKeys, Logical;
    Reaches(cat, base, s, steps, s');
    InvVersion(cat, base, s');
    NobodyYet(cat, base, s);
    EveryTrackIsRecorded(cat, s, steps, s', t, space, k);
    StateTold(cat, base, s, steps, s', t);
    assert s'.commits[..s'.version] == s'.commits;
    BufferTables(cat, s'.txs[t].buf);
    DeclaredKeys(cat, base, steps, t, s'.txs[t].buf, Logical(base, s'.commits), space, k);
  }

  lemma BufferTables(cat: Catalog, buf: Buffer)
    requires BufferOk(cat, buf)
    ensures buf.Keys <= cat.Keys
  {
  }

  lemma ConflictTold(cat: Catalog, base: Tables, s: State, steps: seq<Step>, s': State, t: nat, q: nat)
    requires Initial(cat, base, s) && Runs(cat, s, steps, s') && Careful(cat, s, steps) && t in s'.txs && s'.writer.None?
    requires q < |steps| && steps[q].Finish? && HasFootprint(cat, base, s', t)
    ensures Finishes(steps[..q]) < |s'.commits|
    ensures ClashesAt(cat, base, steps, t, q) <==>
            s'.txs[t].start <= Finishes(steps[..q]) && Conflict(s'.commits[Finishes(steps[..q])].keys, TrueFootprint(cat, base, s', t))
  {
    hide Runs, Careful, Initial, Declares, Depends, Touches, Covers, TrueFootprint, HasFootprint, RegisteredBy;
    StartCounts(cat, base, s, steps, s', t, q);
    CommitDeclares(cat, base, s, steps, s', q, "", KInt(0));
    var keys, f := s'.commits[Finishes(steps[..q])].keys, TrueFootprint(cat, base, s', t);
    forall space, k
      ensures Touches(keys, space, k) <==> Declares(cat, base, steps[..q], steps[q].t, space, k)
      ensures Covers(f, space, k) <==> Depends(cat, base, steps, t, space, k)
    {
      CommitDeclares(cat, base, s, steps, s', q, space, k);
      FootprintTold(cat, base, s, steps, s', t, space, k);
    }
  }

  /** No commit since the start conflicts with the true footprint just when the steps show no clash. */
  lemma ClearIffNoClash(cat: Catalog, base: Tables, s: State, steps: seq<Step>, s': State, t: nat)
    requires Initial(cat, base, s) && Runs(cat, s, steps, s') && Careful(cat, s, steps) && t in s'.txs && s'.writer.None?
    ensures HasFootprint(cat, base, s', t)
    ensures ClearUpTo(s'.commits, s'.txs[t].start, |s'.commits|, TrueFootprint(cat, base, s', t)) <==> !Clashes(cat, base, steps, t)
  {
    hide Runs, Careful, Initial, Inv, Conflict, TrueFootprint, HasFootprint;
    FootprintTold(cat, base, s, steps, s', t, "", KInt(0));
    Reaches(cat, base, s, steps, s');
    InvVersion(cat, base, s');
    VersionCounts(cat, base, s, steps, s');
    var f := TrueFootprint(cat, base, s', t);
    if q: nat :| ClashesAt(cat, base, steps, t, q) {
      ConflictTold(cat, base, s, steps, s', t, q);
      var j := Finishes(steps[..q]);
      assert s'.txs[t].start <= j < |s'.commits| && Conflict(s'.commits[j].keys, f);
    } else if !ClearUpTo(s'.commits, s'.txs[t].start, |s'.commits|, f) {
      var j :| s'.txs[t].start <= j < |s'.commits| && Conflict(s'.commits[j].keys, f);
      assert steps[..|steps|] == steps;
      var q := FinishOf(steps, |steps|, j);
      ConflictTold(cat, base, s, steps, s', t, q);
    }
  }

  /** Whether the plan's keys come from stale or from true old rows makes no difference to the check. */
  lemma PlanClear(cat: Catalog, base: Tables, s: State, t: nat, plan: Plan)
    requires Inv(cat, base, s) && HasFootprint(cat, base, s, t) && s.txs[t].start <= |s.commits|
    requires PlanOk(cat, base, s.commits, s.txs[t].start, s.txs[t].buf, plan)
    ensures ClearUpTo(s.commits, s.txs[t].start, |s.commits|, CommitFootprint(s.txs[t], plan.keys)) <==>
            ClearUpTo(s.commits, s.txs[t].start, |s.commits|, TrueFootprint(cat, base, s, t))
  {
    var tx, n := s.txs[t], |s.commits|;
    InvLog(cat, base, s);
    PlanKeys(cat, base, s.commits, tx.start, tx.buf, plan);
    hide Inv, LogOk, PlanOk, ClearUpTo, Logical, WriteKeys;
    OwnKeysCovered(cat, tx, plan.prior);
    OwnKeysCovered(cat, tx, AllPreimages(Logical(base, s.commits), tx.buf));
    if ClearUpTo(s.commits, tx.start, n, CommitFootprint(tx, plan.keys)) {
      ClearKeys(cat, base, s.commits, tx, plan, CommitFootprint(tx, plan.keys));
    }
    if ClearUpTo(s.commits, tx.start, n, TrueFootprint(cat, base, s, t)) {
      ClearKeys(cat, base, s.commits, tx, plan, TrueFootprint(cat, base, s, t));
    }
  }

  lemma InvLog(cat: Catalog, base: Tables, s: State)
    requires Inv(cat, base, s)
    ensures LogOk(cat, base, s.commits)
  {
    hide LogOk, HistoryOk, PruningSafe, EnginesOk, LimitsOk, LeavingOk, TxOk, WriterOk, Serializable;
  }

  lemma PlanKeys(cat: Catalog, base: Tables, commits: seq<Commit>, start: nat, buf: Buffer, plan: Plan)
    requires start <= |commits| && PlanOk(cat, base, commits, start, buf, plan)
    ensures buf.Keys <= cat.Keys && buf.Keys <= plan.prior.Keys && plan.keys == WriteKeys(cat, buf, plan.prior)
  {
    hide FetchOk, FetchedTable, WriteKeys;
  }

  lemma OwnKeysCovered(cat: Catalog, tx: Tx, prior: Tables)
    requires tx.buf.Keys <= cat.Keys && tx.buf.Keys <= prior.Keys
    ensures forall t, k :: t in tx.buf && k in tx.buf[t] ==> Covers(CommitFootprint(tx, WriteKeys(cat, tx.buf, prior)), t, k)
  {
    hide WriteKeys, Touches, Scans;
    forall t, k | t in tx.buf && k in tx.buf[t] ensures Covers(CommitFootprint(tx, WriteKeys(cat, tx.buf, prior)), t, k) {
      WriteKeysExactly(cat, tx.buf, prior, t, k);
    }
  }

  lemma DeltaAccepts(cat: Catalog, base: Tables, s: State, t: nat)
    requires Inv(cat, base, s) && Enabled(cat, s, CheckDelta(t))
    ensures t in s.txs && s.txs[t].phase.Limited? && s.txs[t].start <= |s.commits|
    ensures PlanOk(cat, base, s.commits, s.txs[t].start, s.txs[t].buf, s.txs[t].phase.plan)
    ensures Next(cat, s, CheckDelta(t)).writer == Some(t) <==>
            ClearUpTo(s.commits, s.txs[t].start, |s.commits|, CommitFootprint(s.txs[t], s.txs[t].phase.plan.keys))
  {
    InvTx(cat, base, s, t);
    TwoPhaseIsOneScan(cat, base, s, t);
    hide Inv, LogOk, EnginesOk, WriterOk, PlanOk, ClearUpTo, Rejects, ObservationOk, Tracked, BufferOk;
  }

  lemma SnapshotAccepts(cat: Catalog, base: Tables, s: State, t: nat)
    requires Inv(cat, base, s) && Enabled(cat, s, CheckSnapshot(t))
    ensures t in s.txs && s.txs[t].phase.Prepared? && s.txs[t].start <= |s.commits|
    ensures PlanOk(cat, base, s.commits, s.txs[t].start, s.txs[t].buf, s.txs[t].phase.plan)
    ensures Next(cat, s, CheckSnapshot(t)).txs[t].phase.Checked? <==>
            ClearUpTo(s.commits, s.txs[t].start, |s.commits|, CommitFootprint(s.txs[t], s.txs[t].phase.plan.keys))
  {
    hide Inv, LogOk, EnginesOk, WriterOk, PlanOk, ClearUpTo, Rejects, ObservationOk, Tracked, BufferOk, HistoryOk;
    InvTx(cat, base, s, t);
    InvVersion(cat, base, s);
    InvHistory(cat, base, s, t);
    HistoryScan(s.version, s.history, s.commits, s.txs[t].start, CommitFootprint(s.txs[t], s.txs[t].phase.plan.keys));
  }

  lemma AuditAccepts(cat: Catalog, base: Tables, s: State, t: nat)
    requires Inv(cat, base, s) && Enabled(cat, s, CheckReadOnly(t))
    ensures t in s.txs && s.txs[t].buf == map[] && s.txs[t].start <= |s.commits|
    ensures Next(cat, s, CheckReadOnly(t)).audits != s.audits <==>
            ClearUpTo(s.commits, s.txs[t].start, |s.commits|, Footprint(s.txs[t].tracked, s.txs[t].ranges, map[]))
  {
    hide Inv, LogOk, EnginesOk, WriterOk, TxOk, ClearUpTo, Rejects, HistoryOk;
    InvTx(cat, base, s, t);
    InvVersion(cat, base, s);
    InvHistory(cat, base, s, t);
    HistoryScan(s.version, s.history, s.commits, s.txs[t].start, Footprint(s.txs[t].tracked, s.txs[t].ranges, map[]));
  }

  lemma InvHistory(cat: Catalog, base: Tables, s: State, t: nat)
    requires Inv(cat, base, s) && t in s.txs
    ensures HistoryOk(s.version, s.history, s.commits) && s.version - |s.history| <= s.txs[t].start <= s.version
  {
    hide LogOk, HistoryOk, EnginesOk, LimitsOk, LeavingOk, TxOk, WriterOk, Serializable;
  }

  lemma NoWritesNoKeys(cat: Catalog, base: Tables, s: State, t: nat)
    requires HasFootprint(cat, base, s, t) && s.txs[t].buf == map[]
    ensures TrueFootprint(cat, base, s, t) == Footprint(s.txs[t].tracked, s.txs[t].ranges, map[])
  {
    assert WriteSpaces(cat, map[]) == {};
  }

  /**
   Validation is exact. In every careful run each of the three checks passes if and only if no
   transaction that finished since this one registered changed a key that this one tracked, scanned
   or writes, as the steps alone tell.
   */
  lemma EveryCheckIsExact(cat: Catalog, base: Tables, s: State, steps: seq<Step>, s': State, t: nat)
    requires Initial(cat, base, s) && Runs(cat, s, steps, s') && Careful(cat, s, steps)
    ensures Enabled(cat, s', CheckSnapshot(t)) ==>
      (Next(cat, s', CheckSnapshot(t)).txs[t].phase.Checked? <==> !Clashes(cat, base, steps, t))
    ensures Enabled(cat, s', CheckDelta(t)) ==>
      (Next(cat, s', CheckDelta(t)).writer == Some(t) <==> !Clashes(cat, base, steps, t))
    ensures Enabled(cat, s', CheckReadOnly(t)) ==>
      (Next(cat, s', CheckReadOnly(t)).audits != s'.audits <==> !Clashes(cat, base, steps, t))
  {
    hide Runs, Careful, Initial, Inv, Clashes, TrueFootprint, HasFootprint, ClearUpTo, PlanOk, Next;
    Reaches(cat, base, s, steps, s');
    if Enabled(cat, s', CheckSnapshot(t)) {
      SnapshotAccepts(cat, base, s', t);
      ClearIffNoClash(cat, base, s, steps, s', t);
      PlanClear(cat, base, s', t, s'.txs[t].phase.plan);
    }
    if Enabled(cat, s', CheckDelta(t)) {
      DeltaAccepts(cat, base, s', t);
      ClearIffNoClash(cat, base, s, steps, s', t);
      PlanClear(cat, base, s', t, s'.txs[t].phase.plan);
    }
    if Enabled(cat, s', CheckReadOnly(t)) {
      AuditAccepts(cat, base, s', t);
      ClearIffNoClash(cat, base, s, steps, s', t);
      NoWritesNoKeys(cat, base, s', t);
    }
  }
}
