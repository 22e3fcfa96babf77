/** Index statistics: the most common key prefixes, and the upper bound on posting lists they give. */
module Statistics {
  import opened Values
  import opened Indexes

  const MCV_LIST_CAP: nat := 256

  type Prefix = seq<DbKey>

  datatype McvEntry = McvEntry(prefix: Prefix, count: nat)

  datatype IndexStats = IndexStats(entryCount: nat, uniqueValues: nat, mostCommon: seq<McvEntry>)

  /** The index key without its primary key. */
  function PrefixOf(x: DbKey): Option<Prefix>
  {
    if x.KComposite? && x.parts != [] then Some(x.parts[..|x.parts| - 1]) else None
  }

  /** How many index entries have a prefix. */
  function PostingLength(keys: seq<DbKey>, p: Prefix): nat
  {
    if keys == [] then 0
    else
      var n := |keys| - 1;
      PostingLength(keys[..n], p) + if PrefixOf(keys[n]) == Some(p) then 1 else 0
  }

  /** Counts that hold each prefix that occurs, with its posting length. */
  ghost predicate IsCount(keys: seq<DbKey>, counts: map<Prefix, nat>)
  {
    forall p :: (p in counts <==> PostingLength(keys, p) > 0) && (p in counts ==> counts[p] == PostingLength(keys, p))
  }

  method CountPrefixes(keys: seq<DbKey>) returns (counts: map<Prefix, nat>)
    ensures IsCount(keys, counts)
  {
    counts := map[];
    assert keys[..0] == [];
    for n := 0 to |keys|
      invariant IsCount(keys[..n], counts)
    {
      assert keys[..n + 1][..n] == keys[..n];
      var p := PrefixOf(keys[n]);
      if p.Some? {
        counts := counts[p.value := (if p.value in counts then counts[p.value] else 0) + 1];
      }
    }
    assert keys[..|keys|] == keys;
  }

  /** The rows of a table with an index entry under a prefix. */
  function RowsUnder(def: IndexDef, t: Table, p: Prefix): set<DbKey>
  {
    set pk | pk in t && KComposite(p + [pk]) in Entries(def, pk, t[pk])
  }

  predicate NoRepeats(keys: seq<DbKey>)
  {
    forall i, j :: 0 <= i < j < |keys| ==> keys[i] != keys[j]
  }

  /** Counting entries by prefix counts keys: each primary key once per prefix. */
  lemma {:induction false} PostingCount(keys: seq<DbKey>, p: Prefix, pks: set<DbKey>)
    requires NoRepeats(keys) && forall pk :: pk in pks <==> KComposite(p + [pk]) in keys
    ensures PostingLength(keys, p) == |pks|
    decreases keys
  {
    if keys == [] {
      assert pks == {};
    } else {
      var n := |keys| - 1;
      var front, last := keys[..n], keys[n];
      assert last !in front;
      if PrefixOf(last) == Some(p) {
        var pk := last.parts[|last.parts| - 1];
        assert last == KComposite(p + [pk]);
        forall k ensures k in pks - {pk} <==> KComposite(p + [k]) in front {
          OnePrimaryKey(p, k, pk);
        }
        PostingCount(front, p, pks - {pk});
      } else {
        forall k ensures KComposite(p + [k]) != last {
          assert (p + [k])[..|p|] == p;
        }
        PostingCount(front, p, pks);
      }
    }
  }

  lemma OnePrimaryKey(p: Prefix, a: DbKey, b: DbKey)
    ensures KComposite(p + [a]) == KComposite(p + [b]) <==> a == b
  {
    assert (p + [a])[|p|] == a && (p + [b])[|p|] == b;
  }

  /** In the index of a table, the posting length of a prefix is the number of rows that have it. */
  lemma PostingLengthIsRows(def: IndexDef, t: Table, keys: seq<DbKey>, p: Prefix)
    requires NoRepeats(keys) && forall x :: x in keys <==> x in Image(def, t)
    ensures PostingLength(keys, p) == |RowsUnder(def, t, p)|
  {
    hide PostingLength, NoRepeats;
    forall pk ensures pk in RowsUnder(def, t, p) <==> KComposite(p + [pk]) in keys {
      var x := KComposite(p + [pk]);
      assert PkOf(x) == pk;
      assert Lookup(Image(def, t), x) == EntryAt(def, Lookup(t, pk), x);
    }
    PostingCount(keys, p, RowsUnder(def, t, p));
  }

  // ---------- The retained list ----------

  /** More frequent first; equal counts by prefix. */
  predicate Precedes(a: McvEntry, b: McvEntry)
  {
    a.count > b.count || (a.count == b.count && SeqLeq(a.prefix, b.prefix))
  }

  lemma PrecedesTotal(a: McvEntry, b: McvEntry)
    ensures Precedes(a, b) || Precedes(b, a)
    ensures Precedes(a, b) && Precedes(b, a) ==> a == b
    ensures Precedes(a, a)
  {
    SeqLeqTotal(a.prefix, b.prefix);
    SeqLeqTotal(a.prefix, a.prefix);
  }

  lemma PrecedesTrans(a: McvEntry, b: McvEntry, c: McvEntry)
    requires Precedes(a, b) && Precedes(b, c)
    ensures Precedes(a, c)
  {
    if a.count == b.count == c.count {
      SeqLeqTrans(a.prefix, b.prefix, c.prefix);
    }
  }

  predicate Ranked(list: seq<McvEntry>)
  {
    forall i, j :: 0 <= i < j < |list| ==> list[i] != list[j] && Precedes(list[i], list[j])
  }

  function EntriesOf(counts: map<Prefix, nat>): set<McvEntry>
  {
    set p | p in counts :: McvEntry(p, counts[p])
  }

  function Cap(n: nat): nat
  {
    if n <= MCV_LIST_CAP then n else MCV_LIST_CAP
  }

  /** The list of the most common entries: ranked, capped, and nothing left out precedes anything kept. */
  ghost predicate IsMostCommon(all: set<McvEntry>, list: seq<McvEntry>)
  {
    && Ranked(list) && |list| == Cap(|all|)
    && (forall i :: 0 <= i < |list| ==> list[i] in all)
    && (forall e, i :: e in all && e !in list && 0 <= i < |list| ==> Precedes(list[i], e))
  }

  /** Keeps the most common of the counted prefixes, whatever order they come in. */
  method KeepMostCommon(all: set<McvEntry>) returns (list: seq<McvEntry>)
    ensures IsMostCommon(all, list)
  {
    list := [];
    var left := all;
    while left != {} && |list| < MCV_LIST_CAP
      invariant Ranked(list) && |list| <= MCV_LIST_CAP && |list| + |left| == |all| && left <= all
      invariant forall i :: 0 <= i < |list| ==> list[i] in all && list[i] !in left
      invariant forall e :: e in all ==> e in left || e in list
      invariant forall e, i :: e in left && 0 <= i < |list| ==> Precedes(list[i], e)
      decreases left
    {
      var first := FirstOf(left);
      list, left := list + [first], left - {first};
    }
  }

  method FirstOf(left: set<McvEntry>) returns (first: McvEntry)
    requires left != {}
    ensures first in left && forall e :: e in left ==> Precedes(first, e)
  {
    first :| first in left;
    PrecedesTotal(first, first);
    var todo := left - {first};
    while todo != {}
      invariant first in left && todo <= left && forall e :: e in left - todo ==> Precedes(first, e)
      decreases todo
    {
      var e :| e in todo;
      PrecedesTotal(first, e);
      PrecedesTotal(e, e);
      if !Precedes(first, e) {
        forall x | x in left - todo ensures Precedes(e, x) {
          PrecedesTrans(e, first, x);
        }
        first := e;
      }
      todo := todo - {e};
    }
  }

  /** The retained list is determined by the counts alone. */
  lemma {:induction false} RankedUnique(a: seq<McvEntry>, b: seq<McvEntry>)
    requires Ranked(a) && Ranked(b) && forall e :: e in a <==> e in b
    ensures a == b
  {
    HasElement(b);
    if a != [] {
      assert a[0] in b && b[0] in a;
      PrecedesTotal(a[0], b[0]);
      assert a[0] == b[0];
      forall e ensures e in a[1..] <==> e in b[1..] {
        assert e in a[1..] <==> e in a && e != a[0];
        assert e in b[1..] <==> e in b && e != b[0];
      }
      RankedUnique(a[1..], b[1..]);
    }
  }

  lemma MostCommonUnique(all: set<McvEntry>, a: seq<McvEntry>, b: seq<McvEntry>)
    requires IsMostCommon(all, a) && IsMostCommon(all, b)
    ensures a == b
  {
    hide Precedes;
    SameKept(all, a, b);
    SameKept(all, b, a);
    RankedUnique(a, b);
  }

  /** Everything one such list keeps, another keeps too: otherwise the other would be shorter. */
  lemma SameKept(all: set<McvEntry>, a: seq<McvEntry>, b: seq<McvEntry>)
    requires IsMostCommon(all, a) && IsMostCommon(all, b)
    ensures forall e :: e in a ==> e in b
  {
    hide Precedes;
    forall e | e in a ensures e in b {
      if e !in b {
        var kept, other := set x | x in a, set x | x in b;
        Distinct(a);
        Distinct(b);
        if other <= kept {
          assert other <= kept - {e};
          Fewer(other, kept - {e});
          assert false;
        }
        var f :| f in other && f !in kept;
        var i :| 0 <= i < |b| && b[i] == f;
        var j :| 0 <= j < |a| && a[j] == e;
        PrecedesTotal(e, f);
      }
    }
  }

  lemma {:induction false} Fewer<T>(a: set<T>, b: set<T>)
    requires a <= b
    ensures |a| <= |b|
  {
    assert b == a + (b - a);
  }

  lemma {:induction false} Distinct(a: seq<McvEntry>)
    requires Ranked(a)
    ensures |set x | x in a| == |a|
  {
    if a != [] {
      var n := |a| - 1;
      Distinct(a[..n]);
      assert (set x | x in a) == (set x | x in a[..n]) + {a[n]};
      assert a[n] !in a[..n];
    }
  }

  // ---------- The bound ----------

  method Analyze(keys: seq<DbKey>) returns (stats: IndexStats)
    ensures stats.entryCount == |keys| && ComputedFrom(keys, stats)
  {
    var counts := CountPrefixes(keys);
    var list := KeepMostCommon(EntriesOf(counts));
    stats := IndexStats(|keys|, |counts|, list);
  }

  /** The statistics an ANALYZE of these index keys gives. */
  ghost predicate ComputedFrom(keys: seq<DbKey>, stats: IndexStats)
  {
    exists counts :: IsCount(keys, counts) && stats.uniqueValues == |counts| && IsMostCommon(EntriesOf(counts), stats.mostCommon)
  }

  function FindPrefix(list: seq<McvEntry>, p: Prefix): (r: Option<McvEntry>)
    ensures r.Some? ==> r.value in list && r.value.prefix == p
    ensures r.None? ==> forall i :: 0 <= i < |list| ==> list[i].prefix != p
  {
    if list == [] then None else if list[0].prefix == p then Some(list[0]) else FindPrefix(list[1..], p)
  }

  /** The average posting length, rounded up. */
  function AverageCeil(stats: IndexStats): nat
  {
    if stats.uniqueValues == 0 then 0 else (stats.entryCount + stats.uniqueValues - 1) / stats.uniqueValues
  }

  lemma AverageIsCeiling(stats: IndexStats)
    requires stats.uniqueValues > 0
    ensures (AverageCeil(stats) - 1) * stats.uniqueValues < stats.entryCount <= AverageCeil(stats) * stats.uniqueValues
  {
    var n, u := stats.entryCount + stats.uniqueValues - 1, stats.uniqueValues;
    assert n == (n / u) * u + n % u;
  }

  function PostingLenUpperBound(stats: IndexStats, p: Prefix): nat
  {
    var entry := FindPrefix(stats.mostCommon, p);
    if entry.Some? then entry.value.count
    else if |stats.mostCommon| >= MCV_LIST_CAP then stats.mostCommon[|stats.mostCommon| - 1].count
    else AverageCeil(stats)
  }

  /** The bound is never below the true posting length, and exact for retained prefixes. */
  lemma BoundHolds(keys: seq<DbKey>, stats: IndexStats, p: Prefix)
    requires ComputedFrom(keys, stats)
    ensures PostingLength(keys, p) <= PostingLenUpperBound(stats, p)
    ensures FindPrefix(stats.mostCommon, p).Some? ==> PostingLenUpperBound(stats, p) == PostingLength(keys, p)
  {
    hide PostingLength;
    var counts :| IsCount(keys, counts) && stats.uniqueValues == |counts| && IsMostCommon(EntriesOf(counts), stats.mostCommon);
    var list, all := stats.mostCommon, EntriesOf(counts);
    var entry := FindPrefix(list, p);
    if entry.Some? {
      var i :| 0 <= i < |list| && list[i] == entry.value;
      assert list[i] in all;
    } else if p in counts {
      var e := McvEntry(p, counts[p]);
      assert e in all && e !in list;
      if |list| < MCV_LIST_CAP {
        AllKept(all, list);
        assert false;
      }
      assert Precedes(list[|list| - 1], e);
    }
  }

  lemma AllKept(all: set<McvEntry>, list: seq<McvEntry>)
    requires IsMostCommon(all, list) && |list| < MCV_LIST_CAP
    ensures forall e :: e in all ==> e in list
  {
    Distinct(list);
    var kept := set x | x in list;
    assert kept <= all && |kept| == |all|;
    if e :| e in all && e !in list {
      assert kept <= all - {e};
      Fewer(kept, all - {e});
      assert false;
    }
  }

  /** The same contents give the same list, in whatever order the prefixes were counted. */
  lemma StatisticsDeterministic(keys: seq<DbKey>, a: IndexStats, b: IndexStats)
    requires ComputedFrom(keys, a) && ComputedFrom(keys, b)
    ensures a.mostCommon == b.mostCommon && a.uniqueValues == b.uniqueValues
  {
    hide PostingLength, IsMostCommon;
    var m :| IsCount(keys, m) && a.uniqueValues == |m| && IsMostCommon(EntriesOf(m), a.mostCommon);
    var n :| IsCount(keys, n) && b.uniqueValues == |n| && IsMostCommon(EntriesOf(n), b.mostCommon);
    assert m == n by {
      assert m.Keys == n.Keys;
    }
    MostCommonUnique(EntriesOf(m), a.mostCommon, b.mostCommon);
  }
}
