/**
 Commits, lazy engine syncs, checkpoints, crashes and replays as one step system. A fsynced
 Prepared record is the commit point; engines sync on their own and lose their own tails.
 */
module Recovery {
  import opened Values
  import opened Indexes
  import opened Stores
  import opened RedoLog

  /** An engine: what is durable, the batches applied since, in order, and what readers see now. */
  datatype Disk = Disk(durable: Engine, unsynced: seq<Delta>, live: Engine)

  /** The engine after a crash that keeps the first n unsynced batches. */
  function Survives(d: Disk, n: nat): Engine
    requires n <= |d.unsynced|
  {
    if n == 0 then d.durable else Patch(Survives(d, n - 1), d.unsynced[n - 1])
  }

  function Survivor(d: Disk, n: nat): Disk
    requires n <= |d.unsynced|
  {
    Disk(Survives(d, n), [], Survives(d, n))
  }

  /** A write_batch call of the replay: its table, the old rows it works from, the engines still to write. */
  datatype Writing = Writing(table: string, prior: Table, pending: set<EngineId>)

  datatype Mode =
    | Up
    | Committing(prior: Tables, pending: set<EngineId>)
    | Down
    | Replaying(next: nat, done: set<string>, current: Option<Writing>)

  /** `base` is the logical state at the start of the log, `committed` every buffer ever logged. */
  datatype State = State(
    disks: map<EngineId, Disk>,
    log: seq<Record>,
    mode: Mode,
    base: Tables,
    committed: seq<Buffer>)

  function Fold(initial: Tables, buffers: seq<Buffer>): Tables
  {
    if buffers == [] then initial
    else ApplyBuffer(Fold(initial, buffers[..|buffers| - 1]), buffers[|buffers| - 1])
  }

  datatype Step =
    | Commit(buf: Buffer)
    | Apply(e: EngineId)
    | Done
    | Sync(e: EngineId)
    | Truncate
    | Crash(keep: map<EngineId, nat>)
    | BeginReplay
    | ReplayTable(t: string)
    | ReplayApply(e: EngineId)
    | ReplayTableDone
    | ReplayNext
    | EndReplay

  predicate AllSynced(disks: map<EngineId, Disk>)
  {
    forall e :: e in disks ==> disks[e].unsynced == []
  }

  function LiveEngines(disks: map<EngineId, Disk>): Fetch
  {
    map e | e in disks :: disks[e].live
  }

  function TablesNow(s: State): Tables
  {
    TablesAt(s.base, s.log, |s.log|)
  }

  function Pushed(disks: map<EngineId, Disk>, e: EngineId, d: Delta): map<EngineId, Disk>
    requires e in disks
  {
    disks[e := Disk(disks[e].durable, disks[e].unsynced + [d], Patch(disks[e].live, d))]
  }

  ghost predicate Enabled(cat: Catalog, s: State, step: Step)
  {
    match step
    case Commit(buf) => s.mode.Up? && BufferOk(cat, buf)
    case Apply(e) => s.mode.Committing? && e in s.mode.pending && e in s.disks && s.log != []
    case Done => s.mode.Committing? && s.mode.pending == {}
    case Sync(e) => !s.mode.Down? && e in s.disks
    case Truncate => s.mode.Up? && AllSynced(s.disks)
    case Crash(keep) => keep.Keys == s.disks.Keys && forall e :: e in keep ==> keep[e] <= |s.disks[e].unsynced|
    case BeginReplay => s.mode.Down?
    case ReplayTable(t) =>
      && s.mode.Replaying? && s.mode.next < |s.log| && s.mode.current.None?
      && t in s.log[s.mode.next].changes && t !in s.mode.done && t in cat
    case ReplayApply(e) =>
      && s.mode.Replaying? && s.mode.next < |s.log| && s.mode.current.Some?
      && e in s.mode.current.value.pending && e in s.disks
    case ReplayTableDone =>
      s.mode.Replaying? && s.mode.current.Some? && s.mode.current.value.pending == {}
    case ReplayNext =>
      && s.mode.Replaying? && s.mode.next < |s.log| && s.mode.current.None?
      && s.mode.done == s.log[s.mode.next].changes.Keys
    case EndReplay => s.mode.Replaying? && s.mode.next == |s.log| && AllSynced(s.disks)
  }

  function PriorOf(prior: Tables, t: string): Table
  {
    if t in prior then prior[t] else map[]
  }

  /** The batch record r sends to engine e, or nothing outside the catalog. */
  function BatchFor(cat: Catalog, r: Record, e: EngineId, prior: Table): Delta
  {
    if BufferOk(cat, r.changes) && IsEngine(cat, e) then RedoBatch(cat, r, e, prior) else map[]
  }

  ghost function Next(cat: Catalog, s: State, step: Step): State
    requires Enabled(cat, s, step)
  {
    match step
    case Commit(buf) =>
      var ts := TablesNow(s);
      s.(log := s.log + [Prepared(buf, Some(LoggedPriors(ts, buf)))],
         committed := s.committed + [buf],
         mode := Committing(AllPreimages(ts, buf), s.disks.Keys))
    case Apply(e) =>
      s.(disks := Pushed(s.disks, e, BatchFor(cat, s.log[|s.log| - 1], e, PriorOf(s.mode.prior, e.table))),
         mode := s.mode.(pending := s.mode.pending - {e}))
    case Done => s.(mode := Up)
    case Sync(e) => s.(disks := s.disks[e := Disk(s.disks[e].live, [], s.disks[e].live)])
    case Truncate => s.(log := [], base := TablesNow(s))
    case Crash(keep) => s.(disks := map e | e in s.disks :: Survivor(s.disks[e], keep[e]), mode := Down)
    case BeginReplay => s.(mode := Replaying(0, {}, None))
    case ReplayTable(t) =>
      var prior := PriorsFor(cat, s.log[s.mode.next], t, LiveEngines(s.disks));
      s.(mode := s.mode.(current := Some(Writing(t, prior, set e | e in s.disks && e.table == t))))
    case ReplayApply(e) =>
      var w := s.mode.current.value;
      s.(disks := Pushed(s.disks, e, BatchFor(cat, s.log[s.mode.next], e, w.prior)),
         mode := s.mode.(current := Some(w.(pending := w.pending - {e}))))
    case ReplayTableDone =>
      s.(mode := s.mode.(done := s.mode.done + {s.mode.current.value.table}, current := None))
    case ReplayNext => s.(mode := Replaying(s.mode.next + 1, {}, None))
    case EndReplay => s.(log := [], base := TablesNow(s), mode := Up)
  }

  // ---------- The invariant ----------

  /** Whatever tail a crash cuts off, the engine left behind is one that replay can repair. */
  ghost predicate DiskOk(cat: Catalog, base: Tables, log: seq<Record>, e: EngineId, d: Disk)
    requires IsEngine(cat, e)
  {
    && d.live == Survives(d, |d.unsynced|)
    && Progress(cat, base, log, 0, e, d.durable)
    && forall i :: 0 <= i < |d.unsynced| ==> Admissible(cat, base, log, e, d.unsynced[i])
  }

  ghost predicate LogOk(cat: Catalog, initial: Tables, s: State)
  {
    && LogWritten(cat, s.base, s.log) && PriorsLogged(s.log)
    && TablesNow(s) == Fold(initial, s.committed)
  }

  ghost predicate DisksOk(cat: Catalog, s: State)
  {
    && (forall e :: e in s.disks <==> IsEngine(cat, e))
    && forall e :: e in s.disks ==> DiskOk(cat, s.base, s.log, e, s.disks[e])
  }

  /** How many records engine e reflects while the log is replayed. */
  function ReplayReached(m: Mode, e: EngineId): nat
    requires m.Replaying?
  {
    var w := m.current;
    if e.table in m.done || (w.Some? && w.value.table == e.table && e !in w.value.pending)
    then m.next + 1 else m.next
  }

  ghost predicate WritingOk(base: Tables, log: seq<Record>, n: nat, done: set<string>, w: Writing)
  {
    && n < |log| && w.table in log[n].changes && w.table !in done
    && (forall e :: e in w.pending ==> e.table == w.table)
    && PriorsUsable(base, log, n, w.table, w.prior)
  }

  ghost predicate ReplayShape(base: Tables, log: seq<Record>, m: Mode)
    requires m.Replaying?
  {
    && m.next <= |log|
    && (m.next == |log| ==> m.done == {} && m.current.None?)
    && (m.next < |log| ==> m.done <= log[m.next].changes.Keys)
    && (m.current.Some? ==> WritingOk(base, log, m.next, m.done, m.current.value))
  }

  /** How many records engine e reflects in each mode. */
  function Reached(log: seq<Record>, m: Mode, e: EngineId): nat
  {
    match m
    case Up => |log|
    case Committing(_, pending) => if e in pending && log != [] then |log| - 1 else |log|
    case Down => 0
    case Replaying(_, _, _) => ReplayReached(m, e)
  }

  ghost predicate ShapeOk(base: Tables, log: seq<Record>, m: Mode)
  {
    && (m.Committing? ==> log != [] && m.prior == AllPreimages(TablesAt(base, log, |log| - 1), log[|log| - 1].changes))
    && (m.Replaying? ==> ReplayShape(base, log, m))
  }

  /** A running database is exact; one under repair is repaired as far as the replay has come. */
  ghost predicate LiveOk(cat: Catalog, base: Tables, log: seq<Record>, m: Mode, e: EngineId, d: Disk)
  {
    var n := Reached(log, m, e);
    && IsEngine(cat, e) && n <= |log|
    && (m.Up? || m.Committing? ==> Holds(cat, TablesAt(base, log, n), e, d.live))
    && (m.Replaying? ==> Progress(cat, base, log, n, e, d.live))
    && (m.Down? ==> d.unsynced == [])
  }

  ghost predicate Holds(cat: Catalog, ts: Tables, e: EngineId, m: Engine)
    requires IsEngine(cat, e)
  {
    TablesOk(cat, ts) && m == Contents(cat, ts, e)
  }

  ghost predicate Inv(cat: Catalog, initial: Tables, s: State)
  {
    && LogOk(cat, initial, s) && DisksOk(cat, s) && ShapeOk(s.base, s.log, s.mode)
    && forall e :: e in s.disks ==> LiveOk(cat, s.base, s.log, s.mode, e, s.disks[e])
  }

  // ---------- Disks ----------

  lemma {:induction false} SurvivorsRepairable(cat: Catalog, base: Tables, log: seq<Record>, e: EngineId, d: Disk,
      n: nat)
    requires IsEngine(cat, e) && DiskOk(cat, base, log, e, d) && n <= |d.unsynced|
    ensures Progress(cat, base, log, 0, e, Survives(d, n))
  {
    if n > 0 {
      SurvivorsRepairable(cat, base, log, e, d, n - 1);
      AdmissibleKeepsStart(cat, base, log, e, Survives(d, n - 1), d.unsynced[n - 1]);
    }
  }

  lemma {:induction false} SurvivesPrefix(d: Disk, d': Disk, n: nat)
    requires d'.durable == d.durable && n <= |d.unsynced| && d.unsynced <= d'.unsynced
    ensures Survives(d', n) == Survives(d, n)
  {
    if n > 0 {
      SurvivesPrefix(d, d', n - 1);
    }
  }

  lemma PushedLive(d: Disk, delta: Delta)
    requires d.live == Survives(d, |d.unsynced|)
    ensures var d' := Disk(d.durable, d.unsynced + [delta], Patch(d.live, delta));
            d'.live == Survives(d', |d'.unsynced|)
  {
    var d' := Disk(d.durable, d.unsynced + [delta], Patch(d.live, delta));
    SurvivesPrefix(d, d', |d.unsynced|);
  }
}
