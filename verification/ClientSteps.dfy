/**
 The transaction object as steps of the machine: each method that writes or tracks does what Write,
 TrackKey and TrackRange steps do, and what a method has tracked allows the Read steps it stands for.
 */
module ClientSteps {
  import opened Values
  import opened Stores
  import opened Occ
  import opened Transactions
  import opened SerialRuns
  import opened TransactionReads

  /** A buffered write is the Write step. */
  lemma WriteIsStep(cat: Catalog, s: State, t: nat, table: string, k: DbKey, change: Option<Row>)
    requires t in s.txs && s.txs[t].phase.Running? && table in cat && (change.Some? ==> |change.value| == |cat[table].columns|)
    ensures Enabled(cat, s, Write(t, table, k, change))
    ensures var buf := s.txs[t].buf;
            Next(cat, s, Write(t, table, k, change)) == SetTx(s, t, s.txs[t].(buf := buf[table := At(buf, table, map[])[k := change]]))
  {
  }

  /** A recorded range is the TrackRange step. */
  lemma RangeIsStep(cat: Catalog, s: State, t: nat, space: string, lo: DbKey, hi: DbKey)
    requires t in s.txs && s.txs[t].phase.Running?
    ensures Enabled(cat, s, TrackRange(t, space, lo, hi))
    ensures var ranges := s.txs[t].ranges;
            Next(cat, s, TrackRange(t, space, lo, hi)) ==
            SetTx(s, t, s.txs[t].(ranges := ranges[space := At(ranges, space, []) + [(lo, hi)]]))
  {
  }

  /** Recording a set of keys is a run of TrackKey steps. */
  lemma {:induction false} ReadsAreSteps(cat: Catalog, s: State, t: nat, space: string, keys: set<DbKey>)
    returns (steps: seq<Step>, s': State)
    requires t in s.txs && s.txs[t].phase.Running? && keys != {}
    ensures Runs(cat, s, steps, s') && forall step :: step in steps ==> step.TrackKey? && step.t == t && step.space == space && step.key in keys
    ensures var tracked := s.txs[t].tracked;
            s' == SetTx(s, t, s.txs[t].(tracked := tracked[space := At(tracked, space, {}) + keys]))
    decreases keys
  {
    var k :| k in keys;
    var step := TrackKey(t, space, k);
    var s1 := Next(cat, s, step);
    assert s1 == SetTx(s, t, s.txs[t].(tracked := AddKey(s.txs[t].tracked, space, k)));
    if keys == {k} {
      steps, s' := [step], s1;
      assert steps[1..] == [];
    } else {
      var rest: seq<Step>;
      rest, s' := ReadsAreSteps(cat, s1, t, space, keys - {k});
      steps := [step] + rest;
      assert steps[1..] == rest;
      TrackedTwice(s.txs[t].tracked, space, k, keys);
      assert s1.txs[t := s'.txs[t]] == s.txs[t := s'.txs[t]];
    }
  }

  lemma TrackedTwice(tracked: KeySets, space: string, k: DbKey, keys: set<DbKey>)
    requires k in keys
    ensures var one := AddKey(tracked, space, k);
            one[space := At(one, space, {}) + (keys - {k})] == tracked[space := At(tracked, space, {}) + keys]
  {
    var one := AddKey(tracked, space, k);
    assert At(one, space, {}) == At(tracked, space, {}) + {k};
    assert At(tracked, space, {}) + {k} + (keys - {k}) == At(tracked, space, {}) + keys;
  }

  /** Keys in the read set may be read from every engine under their name. */
  lemma PointReadsAllowed(cat: Catalog, s: State, t: nat, e: EngineId, keys: set<DbKey>)
    requires t in s.txs && s.txs[t].phase.Running? && e in s.engines && keys <= At(s.txs[t].tracked, SpaceOf(e), {})
    ensures Enabled(cat, s, Read(t, e, Points(keys)))
  {
  }

  /** A recorded range may be scanned in every engine under its name: a table's groups, or an index. */
  lemma ScansAllowed(cat: Catalog, s: State, t: nat, e: EngineId, lo: DbKey, hi: DbKey)
    requires t in s.txs && s.txs[t].phase.Running? && e in s.engines && (lo, hi) in At(s.txs[t].ranges, SpaceOf(e), [])
    ensures Enabled(cat, s, Read(t, e, Span(lo, hi)))
  {
    var ranges := s.txs[t].ranges[SpaceOf(e)];
    var i :| 0 <= i < |ranges| && ranges[i] == (lo, hi);
    assert forall k :: InRange(k, lo, hi) ==> Scans(s.txs[t].ranges, SpaceOf(e), k);
  }
}
