/**
 Optimistic concurrency control: the commit history, the registered transactions, and the
 conflict scans. Each method is one section that the database runs under its history lock.
 */
module Occ {
  import opened Values
  import opened Stores

  datatype CommitRecord = CommitRecord(version: nat, keys: KeySets)

  type Ranges = map<string, seq<(DbKey, DbKey)>>

  /** Everything a transaction must not see changed: point reads, scanned ranges, written keys. */
  datatype Footprint = Footprint(readKeys: KeySets, ranges: Ranges, writeKeys: KeySets)

  ghost predicate Scans(ranges: Ranges, space: string, k: DbKey)
  {
    space in ranges && exists i :: 0 <= i < |ranges[space]| && InRange(k, ranges[space][i].0, ranges[space][i].1)
  }

  ghost predicate Covers(f: Footprint, space: string, k: DbKey)
  {
    Touches(f.readKeys, space, k) || Scans(f.ranges, space, k) || Touches(f.writeKeys, space, k)
  }

  ghost predicate Conflict(keys: KeySets, f: Footprint)
  {
    exists space, k :: Touches(keys, space, k) && Covers(f, space, k)
  }

  /** Some record newer than the given version conflicts with the footprint. */
  ghost predicate Rejects(history: seq<CommitRecord>, after: nat, f: Footprint)
  {
    exists i :: 0 <= i < |history| && history[i].version > after && Conflict(history[i].keys, f)
  }

  function Retain(history: seq<CommitRecord>, limit: nat): seq<CommitRecord>
  {
    if history == [] then []
    else
      var last := history[|history| - 1];
      var front := Retain(history[..|history| - 1], limit);
      if last.version >= limit then front + [last] else front
  }

  /** The newest version in the history, or the start version when the history is empty. */
  function NewestVersion(history: seq<CommitRecord>, start: nat): (v: nat)
    ensures history == [] ==> v == start
    ensures forall i :: 0 <= i < |history| ==> history[i].version <= v
    ensures history != [] ==> exists i :: 0 <= i < |history| && history[i].version == v
  {
    if history == [] then start
    else if |history| == 1 then history[0].version
    else
      var front := NewestVersion(history[..|history| - 1], start);
      var last := history[|history| - 1].version;
      if front <= last then last else front
  }

  /** The smallest start version among the registered transactions, if there are any. */
  ghost predicate IsMinStart(active: map<nat, nat>, m: Option<nat>)
  {
    && (m.None? <==> active == map[])
    && (m.Some? ==> exists t :: t in active && active[t] == m.value)
    && (m.Some? ==> forall t :: t in active ==> m.value <= active[t])
  }

  function LimitOr(limit: Option<nat>, fallback: nat): nat
  {
    if limit.Some? then limit.value else fallback
  }

  // ---------- The scans ----------

  /** Do two families of key sets meet? */
  method KeysMeet(a: KeySets, b: KeySets) returns (meet: bool)
    ensures meet <==> exists space, k :: Touches(a, space, k) && Touches(b, space, k)
  {
    var todo := a.Keys;
    while todo != {}
      invariant todo <= a.Keys
      invariant forall space, k :: space !in todo && Touches(a, space, k) ==> !Touches(b, space, k)
      decreases todo
    {
      var space :| space in todo;
      if space in b {
        var ks := a[space];
        while ks != {}
          invariant ks <= a[space]
          invariant forall k :: k in a[space] && k !in ks ==> k !in b[space]
          decreases ks
        {
          var k :| k in ks;
          if k in b[space] {
            assert Touches(a, space, k) && Touches(b, space, k);
            return true;
          }
          ks := ks - {k};
        }
      }
      todo := todo - {space};
    }
    return false;
  }

  method RangeHit(k: DbKey, ranges: seq<(DbKey, DbKey)>) returns (hit: bool)
    ensures hit <==> exists i :: 0 <= i < |ranges| && InRange(k, ranges[i].0, ranges[i].1)
  {
    for i := 0 to |ranges|
      invariant forall j :: 0 <= j < i ==> !InRange(k, ranges[j].0, ranges[j].1)
    {
      if Leq(ranges[i].0, k) && Leq(k, ranges[i].1) {
        return true;
      }
    }
    return false;
  }

  /** Does a committed key lie in a scanned range? */
  method PhantomHit(keys: KeySets, ranges: Ranges) returns (hit: bool)
    ensures hit <==> exists space, k :: Touches(keys, space, k) && Scans(ranges, space, k)
  {
    var todo := ranges.Keys;
    while todo != {}
      invariant todo <= ranges.Keys
      invariant forall space, k :: space !in todo && Touches(keys, space, k) ==> !Scans(ranges, space, k)
      decreases todo
    {
      var space :| space in todo;
      if space in keys {
        var ks := keys[space];
        while ks != {}
          invariant ks <= keys[space]
          invariant forall k :: k in keys[space] && k !in ks ==> !Scans(ranges, space, k)
          decreases ks
        {
          var k :| k in ks;
          var inside := RangeHit(k, ranges[space]);
          if inside {
            assert Touches(keys, space, k) && Scans(ranges, space, k);
            return true;
          }
          ks := ks - {k};
        }
      }
      todo := todo - {space};
    }
    return false;
  }

  /** Read-write, phantom and write-write checks against one commit record. */
  method HasConflict(keys: KeySets, f: Footprint) returns (conflict: bool)
    ensures conflict <==> Conflict(keys, f)
  {
    conflict := KeysMeet(f.readKeys, keys);
    if !conflict {
      conflict := PhantomHit(keys, f.ranges);
    }
    if !conflict {
      conflict := KeysMeet(f.writeKeys, keys);
    }
    assert conflict ==> exists space, k :: Touches(keys, space, k) && Covers(f, space, k);
  }

  method ScanHistory(history: seq<CommitRecord>, after: nat, f: Footprint) returns (rejected: bool)
    ensures rejected <==> Rejects(history, after, f)
  {
    for i := 0 to |history|
      invariant forall j :: 0 <= j < i && history[j].version > after ==> !Conflict(history[j].keys, f)
    {
      if history[i].version > after {
        var c := HasConflict(history[i].keys, f);
        if c {
          return true;
        }
      }
    }
    return false;
  }

  method MinStart(active: map<nat, nat>) returns (m: Option<nat>)
    ensures IsMinStart(active, m)
  {
    m := None;
    var todo := active.Keys;
    while todo != {}
      invariant todo <= active.Keys
      invariant m.None? <==> todo == active.Keys
      invariant m.Some? ==> exists t :: t in active && active[t] == m.value
      invariant m.Some? ==> forall t :: t in active && t !in todo ==> m.value <= active[t]
      decreases todo
    {
      var t :| t in todo;
      if m.None? || active[t] < m.value {
        m := Some(active[t]);
      }
      todo := todo - {t};
    }
    assert active == map[] <==> active.Keys == {};
  }

  // ---------- The shared state ----------

  class Database {
    var version: nat
    var history: seq<CommitRecord>
    var active: map<nat, nat>

    constructor ()
      ensures version == 0 && history == [] && active == map[]
    {
      version, history, active := 0, [], map[];
    }

    method RegisterTransaction(tx: nat) returns (start: nat)
      modifies this`active
      ensures start == version
      ensures active == old(active)[tx := version]
    {
      start := version;
      active := active[tx := start];
    }

    /** The smallest start version among the registered transactions. */
    method PruneLimit() returns (limit: Option<nat>)
      ensures IsMinStart(active, limit)
    {
      limit := MinStart(active);
    }

    /** First part of unregistering, under the lock of the active set. */
    method LeaveActive(tx: nat) returns (least: Option<nat>)
      modifies this`active
      ensures active == old(active) - {tx} && IsMinStart(active, least)
    {
      active := active - {tx};
      least := PruneLimit();
    }

    /** Second part, under no lock: the version is loaded only when no transaction was left. */
    method LoadLimit(least: Option<nat>) returns (limit: nat)
      ensures limit == LimitOr(least, version)
    {
      limit := if least.Some? then least.value else version;
    }

    /** Third part, under the history lock. */
    method PruneHistory(limit: nat)
      modifies this`history
      ensures history == Retain(old(history), limit)
    {
      history := Retain(history, limit);
    }

    /** Unregistering without interruption between its three parts. */
    method UnregisterTransaction(tx: nat)
      modifies this`active, this`history
      ensures active == old(active) - {tx}
      ensures exists m: Option<nat> :: IsMinStart(active, m) && history == Retain(old(history), LimitOr(m, version))
    {
      var least := LeaveActive(tx);
      var limit := LoadLimit(least);
      PruneHistory(limit);
    }

    /** First scan, under the read lock: None on a conflict, else the newest version it has checked. */
    method ValidateSnapshot(start: nat, f: Footprint) returns (snapshot: Option<nat>)
      ensures snapshot.None? <==> Rejects(history, start, f)
      ensures snapshot.Some? ==> snapshot.value == NewestVersion(history, start)
    {
      var rejected := ScanHistory(history, start, f);
      snapshot := if rejected then None else Some(NewestVersion(history, start));
    }

    /** Second scan, under the write lock: only the records the first scan could not have seen. */
    method ValidateDelta(snapshot: nat, f: Footprint) returns (accepted: bool)
      ensures accepted <==> !Rejects(history, snapshot, f)
    {
      var rejected := ScanHistory(history, snapshot, f);
      accepted := !rejected;
    }

    /** Publishes the commit and prunes, still under the write lock. */
    method RecordCommit(writeKeys: KeySets, limit: Option<nat>) returns (commitVersion: nat)
      modifies this`version, this`history
      ensures commitVersion == version == old(version) + 1
      ensures history == Retain(old(history) + [CommitRecord(version, writeKeys)], LimitOr(limit, version))
    {
      version := version + 1;
      commitVersion := version;
      history := history + [CommitRecord(commitVersion, writeKeys)];
      history := Retain(history, LimitOr(limit, commitVersion));
    }

    method ValidateReadOnly(start: nat, readKeys: KeySets, ranges: Ranges) returns (accepted: bool)
      ensures accepted <==> !Rejects(history, start, Footprint(readKeys, ranges, map[]))
    {
      var rejected := ScanHistory(history, start, Footprint(readKeys, ranges, map[]));
      accepted := !rejected;
    }
  }
}
