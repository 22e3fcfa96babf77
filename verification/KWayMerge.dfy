/** The k-way merge of sorted runs, with cascading passes when there are too many runs to open. */
module KWayMerge {
  import opened Values
  import opened SortOrder
  import opened RunFiles

  const MAX_FANIN: nat := 64

  // ---------- Sorted runs and what they hold together ----------

  predicate Wide(ascending: seq<bool>, e: Entry)
  {
    |e.keys| >= |ascending|
  }

  ghost predicate EntryLeq(ascending: seq<bool>, a: Entry, b: Entry)
  {
    Wide(ascending, a) && Wide(ascending, b) && KeyLeq(a.keys, b.keys, ascending)
  }

  ghost predicate SortedRun(ascending: seq<bool>, es: seq<Entry>)
  {
    && (forall i :: 0 <= i < |es| ==> Wide(ascending, es[i]))
    && (forall i, j :: 0 <= i < j < |es| ==> EntryLeq(ascending, es[i], es[j]))
  }

  ghost predicate AllSorted(ascending: seq<bool>, runs: seq<seq<Entry>>)
  {
    forall i :: 0 <= i < |runs| ==> SortedRun(ascending, runs[i])
  }

  function Bag(runs: seq<seq<Entry>>): multiset<Entry>
  {
    if runs == [] then multiset{} else Bag(runs[..|runs| - 1]) + multiset(runs[|runs| - 1])
  }

  lemma EntryTrans(ascending: seq<bool>, a: Entry, b: Entry, c: Entry)
    requires EntryLeq(ascending, a, b) && EntryLeq(ascending, b, c)
    ensures EntryLeq(ascending, a, c)
  {
    KeyOrder(a.keys, b.keys, c.keys, ascending);
  }

  lemma EntryTotal(ascending: seq<bool>, a: Entry, b: Entry)
    requires Wide(ascending, a) && Wide(ascending, b)
    ensures EntryLeq(ascending, a, b) || EntryLeq(ascending, b, a)
    ensures EntryLeq(ascending, a, a)
  {
    KeyOrder(a.keys, b.keys, a.keys, ascending);
  }

  lemma {:induction false} BagMember(runs: seq<seq<Entry>>, e: Entry)
    ensures e in Bag(runs) <==> exists i :: 0 <= i < |runs| && e in runs[i]
  {
    if runs != [] {
      var n := |runs| - 1;
      BagMember(runs[..n], e);
      assert e in multiset(runs[n]) <==> e in runs[n];
    }
  }

  lemma BagPush(a: seq<seq<Entry>>, es: seq<Entry>)
    ensures Bag(a + [es]) == Bag(a) + multiset(es)
  {
    assert (a + [es])[..|a|] == a;
  }

  lemma {:induction false} BagAppend(a: seq<seq<Entry>>, b: seq<seq<Entry>>)
    ensures Bag(a + b) == Bag(a) + Bag(b)
  {
    if b == [] {
      assert a + b == a;
    } else {
      var n := |b| - 1;
      BagAppend(a, b[..n]);
      BagPush(a + b[..n], b[n]);
      hide Bag;
      assert a + b == (a + b[..n]) + [b[n]];
      assert Bag(b) == Bag(b[..n]) + multiset(b[n]) by { BagPush(b[..n], b[n]); assert b == b[..n] + [b[n]]; }
    }
  }

  /** Taking the head of one run takes exactly that entry out of the bag. */
  lemma BagTake(runs: seq<seq<Entry>>, r: nat)
    requires r < |runs| && runs[r] != []
    ensures runs[r][0] in Bag(runs)
    ensures Bag(runs[r := runs[r][1..]]) == Bag(runs) - multiset{runs[r][0]}
  {
    var a, b, es := runs[..r], runs[r + 1..], runs[r];
    hide Bag;
    assert runs == a + [es] + b && runs[r := es[1..]] == a + [es[1..]] + b;
    BagAppend(a + [es], b);
    BagPush(a, es);
    BagAppend(a + [es[1..]], b);
    BagPush(a, es[1..]);
    assert es == [es[0]] + es[1..];
  }

  // ---------- The merge ----------

  function StreamOf(heap: map<nat, Entry>, tails: seq<seq<Entry>>, r: nat): seq<Entry>
    requires r < |tails|
  {
    if r in heap then [heap[r]] + tails[r] else tails[r]
  }

  function StreamsOf(heap: map<nat, Entry>, tails: seq<seq<Entry>>): (streams: seq<seq<Entry>>)
    ensures |streams| == |tails| && forall r :: 0 <= r < |tails| ==> streams[r] == StreamOf(heap, tails, r)
  {
    seq(|tails|, r requires 0 <= r < |tails| => StreamOf(heap, tails, r))
  }

  /** Heap and run cursors fit together: a run with nothing in the heap is exhausted. */
  ghost predicate RunsOk(c: Codec, heap: map<nat, Entry>, runs: seq<Run>, tails: seq<seq<Entry>>)
  {
    && |runs| == |tails| && (forall r :: r in heap ==> r < |runs|)
    && (forall r :: 0 <= r < |runs| ==> Holds(c, runs[r], tails[r]))
    && (forall r :: 0 <= r < |runs| && r !in heap ==> tails[r] == [])
  }

  /** Opens every run and puts the first entry of each into the heap. */
  method OpenRuns(c: Codec, files: seq<File>, ghost contents: seq<seq<Entry>>)
    returns (heap: map<nat, Entry>, runs: seq<Run>, ghost tails: seq<seq<Entry>>)
    requires Lossless(c) && Written(c, files, contents)
    ensures RunsOk(c, heap, runs, tails) && StreamsOf(heap, tails) == contents
  {
    hide Open, FileOf, AllStorable, Holds;
    heap, runs, tails := map[], [], [];
    for n := 0 to |files|
      invariant |runs| == n && RunsOk(c, heap, runs, tails)
      invariant forall r :: 0 <= r < n ==> StreamOf(heap, tails, r) == contents[r]
    {
      OpenPeeks(c, contents[n]);
      var run := Open(c, files[n]).value;
      if run.peeked.Some? {
        heap := heap[n := run.peeked.value];
      }
      ghost var tail := if contents[n] == [] then [] else contents[n][1..];
      tails := tails + [tail];
      runs := runs + [run];
      assert StreamOf(heap, tails, n) == contents[n];
    }
  }

  /** Replaces the popped entry of run r by the next one of that run, if any. */
  method Refill(c: Codec, heap: map<nat, Entry>, runs: seq<Run>, ghost tails: seq<seq<Entry>>, r: nat)
    returns (heap': map<nat, Entry>, runs': seq<Run>, ghost tails': seq<seq<Entry>>)
    requires Lossless(c) && RunsOk(c, heap, runs, tails) && r in heap
    ensures RunsOk(c, heap', runs', tails') && |runs'| == |runs|
    ensures StreamsOf(heap', tails') == StreamsOf(heap, tails)[r := StreamsOf(heap, tails)[r][1..]]
  {
    hide Advance, Holds;
    AdvancePeeks(c, runs[r], tails[r]);
    var run := Advance(c, runs[r]).value;
    heap', tails' := heap - {r}, tails;
    if run.peeked.Some? {
      heap' := heap'[r := run.peeked.value];
      tails' := tails[r := tails[r][1..]];
    }
    runs' := runs[r := run];
    assert StreamOf(heap', tails', r) == StreamOf(heap, tails, r)[1..];
    assert forall q :: 0 <= q < |tails| && q != r ==> StreamOf(heap', tails', q) == StreamOf(heap, tails, q);
  }

  class Merger {
    const codec: Codec
    const ascending: seq<bool>
    var heap: map<nat, Entry>
    var runs: seq<Run>
    ghost var tails: seq<seq<Entry>>

    /** The entries of each run that have not come out yet: the one in the heap, then the rest of the file. */
    ghost function Streams(): seq<seq<Entry>>
      reads this
    {
      StreamsOf(heap, tails)
    }

    ghost predicate Valid()
      reads this
    {
      && Lossless(codec) && |runs| <= MAX_FANIN
      && RunsOk(codec, heap, runs, tails) && AllSorted(ascending, Streams())
    }

    /** Starts a merge of at most MAX_FANIN runs. */
    constructor Prime(codec: Codec, files: seq<File>, ascending: seq<bool>, ghost contents: seq<seq<Entry>>)
      requires Lossless(codec) && |files| <= MAX_FANIN && AllSorted(ascending, contents)
      requires Written(codec, files, contents)
      ensures Valid() && Streams() == contents && this.ascending == ascending && this.codec == codec
    {
      this.codec, this.ascending := codec, ascending;
      var first, cursors, rest := OpenRuns(codec, files, contents);
      heap, runs, tails := first, cursors, rest;
    }

    /** Pops an entry that is least among the heap. */
    method Least() returns (r: nat)
      requires Valid() && heap != map[]
      ensures r in heap && forall q :: q in heap ==> EntryLeq(ascending, heap[r], heap[q])
    {
      forall q | q in heap ensures Wide(ascending, heap[q]) {
        assert SortedRun(ascending, Streams()[q]);
        assert Streams()[q][0] == heap[q];
      }
      r :| r in heap;
      EntryTotal(ascending, heap[r], heap[r]);
      var todo := heap.Keys - {r};
      while todo != {}
        invariant r in heap && todo <= heap.Keys
        invariant forall q :: q in heap && q !in todo ==> EntryLeq(ascending, heap[r], heap[q])
        decreases todo
      {
        var q :| q in todo;
        EntryTotal(ascending, heap[r], heap[q]);
        EntryTotal(ascending, heap[q], heap[q]);
        BeforeIsKeyBefore(heap[q].keys, heap[r].keys, ascending);
        if CompareKeys(heap[q].keys, heap[r].keys, ascending) == Before {
          forall p | p in heap && p !in todo ensures EntryLeq(ascending, heap[q], heap[p]) {
            EntryTrans(ascending, heap[q], heap[r], heap[p]);
          }
          r := q;
        }
        todo := todo - {q};
      }
    }

    /** The next entry in order: a least one of all that are left, which it removes. */
    method Next() returns (e: Option<Entry>)
      requires Valid()
      modifies this
      ensures Valid()
      ensures e.None? ==> Bag(old(Streams())) == multiset{} && Bag(Streams()) == multiset{}
      ensures e.Some? ==>
        && e.value in Bag(old(Streams())) && Bag(Streams()) == Bag(old(Streams())) - multiset{e.value}
        && forall x :: x in Bag(old(Streams())) ==> EntryLeq(ascending, e.value, x)
    {
      hide RunsOk, EntryLeq, SortedRun;
      if heap == map[] {
        Exhausted();
        NothingLeft(Streams());
        return None;
      }
      ghost var before := Streams();
      var r := Least();
      var entry := heap[r];
      LeastOfAll(r);
      HeapIsHead(r);
      BagTake(before, r);
      heap, runs, tails := Refill(codec, heap, runs, tails, r);
      TailSorted(ascending, before[r]);
      e := Some(entry);
    }

    lemma Exhausted()
      requires Valid() && heap == map[]
      ensures forall r :: 0 <= r < |Streams()| ==> Streams()[r] == []
    {
    }

    lemma HeapIsHead(r: nat)
      requires Valid() && r in heap
      ensures r < |Streams()| && Streams()[r] != [] && Streams()[r][0] == heap[r]
    {
    }

    lemma LeastOfAll(r: nat)
      requires Valid() && r in heap && forall q :: q in heap ==> EntryLeq(ascending, heap[r], heap[q])
      ensures forall x :: x in Bag(Streams()) ==> EntryLeq(ascending, heap[r], x)
    {
      forall x | x in Bag(Streams()) ensures EntryLeq(ascending, heap[r], x) {
        BagMember(Streams(), x);
        var q :| 0 <= q < |Streams()| && x in Streams()[q];
        var es := Streams()[q];
        assert SortedRun(ascending, es);
        var j :| 0 <= j < |es| && es[j] == x;
        assert q in heap && es[0] == heap[q];
        if j > 0 {
          EntryTrans(ascending, heap[r], es[0], es[j]);
        }
      }
    }
  }

  lemma {:induction false} NothingLeft(runs: seq<seq<Entry>>)
    requires forall i :: 0 <= i < |runs| ==> runs[i] == []
    ensures Bag(runs) == multiset{}
  {
    if runs != [] {
      NothingLeft(runs[..|runs| - 1]);
    }
  }

  lemma TailSorted(ascending: seq<bool>, es: seq<Entry>)
    requires SortedRun(ascending, es) && es != []
    ensures SortedRun(ascending, es[1..])
  {
  }

  /** Each file was written from the entries given for it. */
  ghost predicate Written(c: Codec, files: seq<File>, contents: seq<seq<Entry>>)
  {
    && |files| == |contents|
    && forall i :: 0 <= i < |files| ==> files[i] == FileOf(c, contents[i]) && AllStorable(c, contents[i]) && |contents[i]| < U64_LIMIT
  }

  // ---------- Draining, intermediate runs, cascading ----------

  /** Everything already out is at most everything still in. */
  ghost predicate Below(ascending: seq<bool>, out: seq<Entry>, bag: multiset<Entry>)
  {
    forall i, x :: 0 <= i < |out| && x in bag ==> EntryLeq(ascending, out[i], x)
  }

  lemma PushSorted(ascending: seq<bool>, out: seq<Entry>, e: Entry, bag: multiset<Entry>)
    requires SortedRun(ascending, out) && Below(ascending, out, bag) && e in bag
    requires forall x :: x in bag ==> EntryLeq(ascending, e, x)
    ensures SortedRun(ascending, out + [e]) && Below(ascending, out + [e], bag - multiset{e})
  {
    hide EntryLeq;
    assert Wide(ascending, e) by { assert EntryLeq(ascending, e, e) ==> Wide(ascending, e) by { LeqIsWide(ascending, e); } }
  }

  lemma LeqIsWide(ascending: seq<bool>, e: Entry)
    ensures EntryLeq(ascending, e, e) ==> Wide(ascending, e)
  {
  }

  /** Writes the whole merge to a file behind a zero count, then patches the count in place. */
  method WriteMerged(m: Merger) returns (file: File, ghost es: seq<Entry>)
    requires m.Valid() && |Bag(m.Streams())| < U64_LIMIT
    requires forall x :: x in Bag(m.Streams()) ==> Storable(m.codec, x)
    modifies m
    ensures SortedRun(m.ascending, es) && multiset(es) == old(Bag(m.Streams()))
    ensures file == FileOf(m.codec, es) && AllStorable(m.codec, es) && |es| < U64_LIMIT
  {
    hide *;
    NoRecords(m.codec);
    ghost var all := Bag(m.Streams());
    file, es := ToLe(0, 8), [];
    EmptySorted(m.ascending, all);
    var count: nat := 0;
    while true
      invariant m.Valid() && count == |es| && AllStorable(m.codec, es)
      invariant |file| >= 8 && file[8..] == Records(m.codec, es)
      invariant SortedRun(m.ascending, es) && Below(m.ascending, es, Bag(m.Streams()))
      invariant multiset(es) + Bag(m.Streams()) == all
      decreases |Bag(m.Streams())|
    {
      ghost var bag := Bag(m.Streams());
      var e := m.Next();
      if e.None? {
        break;
      }
      PushSorted(m.ascending, es, e.value, bag);
      assert e.value in all;
      StorableFits(m.codec, e.value);
      var more := WriteEntry(m.codec, file, e.value);
      RecordPushed(m.codec, es, e.value);
      assert more.value[8..] == file[8..] + Record(m.codec, e.value);
      file, es, count := more.value, es + [e.value], count + 1;
    }
    assert |es| == |multiset(es)|;
    file := PatchCount(file, count);
    FileIs(m.codec, es);
  }

  lemma StorableFits(c: Codec, e: Entry)
    requires Storable(c, e)
    ensures Fits(c, e)
  {
  }

  lemma NoRecords(c: Codec)
    ensures Records(c, []) == [] && AllStorable(c, [])
  {
  }

  lemma RecordPushed(c: Codec, es: seq<Entry>, e: Entry)
    requires AllStorable(c, es) && Storable(c, e)
    ensures Records(c, es + [e]) == Records(c, es) + Record(c, e) && AllStorable(c, es + [e])
  {
    hide Storable;
    RecordsPush(c, es, e);
  }

  lemma FileIs(c: Codec, es: seq<Entry>)
    ensures FileOf(c, es) == ToLe(|es|, 8) + Records(c, es)
  {
  }

  lemma EmptySorted(ascending: seq<bool>, bag: multiset<Entry>)
    ensures SortedRun(ascending, []) && Below(ascending, [], bag)
  {
  }

  /** Sorted runs on disk, small enough to count in 64 bits. */
  ghost predicate GoodRuns(c: Codec, files: seq<File>, ascending: seq<bool>, contents: seq<seq<Entry>>)
  {
    Lossless(c) && Written(c, files, contents) && AllSorted(ascending, contents) && |Bag(contents)| < U64_LIMIT
  }

  lemma BagFits(c: Codec, files: seq<File>, contents: seq<seq<Entry>>)
    requires Written(c, files, contents)
    ensures forall x :: x in Bag(contents) ==> Storable(c, x)
  {
    hide Storable;
    forall x | x in Bag(contents) ensures Storable(c, x) {
      BagMember(contents, x);
      var i :| 0 <= i < |contents| && x in contents[i];
      var j :| 0 <= j < |contents[i]| && contents[i][j] == x;
    }
  }

  /** Merges a group of runs into one run on disk. */
  method MergeChunk(c: Codec, files: seq<File>, ascending: seq<bool>, ghost contents: seq<seq<Entry>>)
    returns (file: File, ghost es: seq<Entry>)
    requires |files| <= MAX_FANIN && GoodRuns(c, files, ascending, contents)
    ensures SortedRun(ascending, es) && multiset(es) == Bag(contents) && Written(c, [file], [es])
  {
    hide Bag, SortedRun, FileOf;
    BagFits(c, files, contents);
    var m := new Merger.Prime(c, files, ascending, contents);
    file, es := WriteMerged(m);
  }

  lemma SliceGood(c: Codec, files: seq<File>, ascending: seq<bool>, contents: seq<seq<Entry>>, i: nat, j: nat)
    requires GoodRuns(c, files, ascending, contents) && i <= j <= |files|
    ensures GoodRuns(c, files[i..j], ascending, contents[i..j])
    ensures Bag(contents[..j]) == Bag(contents[..i]) + Bag(contents[i..j])
  {
    hide Bag, SortedRun, FileOf, AllStorable;
    assert contents[..j] == contents[..i] + contents[i..j];
    assert contents == contents[..j] + contents[j..];
    BagAppend(contents[..i], contents[i..j]);
    BagAppend(contents[..j], contents[j..]);
  }

  /** One cascading pass: consecutive groups of at most MAX_FANIN runs, a lone run carried over. */
  method MergePass(c: Codec, files: seq<File>, ascending: seq<bool>, ghost contents: seq<seq<Entry>>)
    returns (next: seq<File>, ghost merged: seq<seq<Entry>>)
    requires |files| > MAX_FANIN && GoodRuns(c, files, ascending, contents)
    ensures GoodRuns(c, next, ascending, merged) && Bag(merged) == Bag(contents) && |next| < |files|
  {
    hide Bag, SortedRun, FileOf, AllStorable;
    next, merged := [], [];
    EmptyBag();
    assert contents[..0] == [];
    var i := 0;
    while i < |files|
      invariant i <= |files| && |next| == |merged| && Written(c, next, merged) && AllSorted(ascending, merged)
      invariant Bag(merged) == Bag(contents[..i])
      invariant MAX_FANIN * |next| < i + MAX_FANIN && (i < |files| ==> i == MAX_FANIN * |next|)
      decreases |files| - i
    {
      var j := if i + MAX_FANIN <= |files| then i + MAX_FANIN else |files|;
      SliceGood(c, files, ascending, contents, i, j);
      ghost var es;
      var file;
      if j == i + 1 {
        file, es := files[i], contents[i];
        OneBag(contents[i]);
        assert contents[i..j] == [contents[i]];
      } else {
        file, es := MergeChunk(c, files[i..j], ascending, contents[i..j]);
      }
      BagPush(merged, es);
      assert Written(c, [file], [es]);
      next, merged := next + [file], merged + [es];
      i := j;
    }
    assert contents[..|files|] == contents;
  }

  lemma EmptyBag()
    ensures Bag([]) == multiset{}
  {
  }

  lemma OneBag(es: seq<Entry>)
    ensures Bag([es]) == multiset(es)
  {
    BagPush([], es);
    assert [] + [es] == [es];
  }

  /** Prepares the merge of any number of runs: passes until at most MAX_FANIN are left. */
  method NewMerge(c: Codec, files: seq<File>, ascending: seq<bool>, ghost contents: seq<seq<Entry>>) returns (m: Merger)
    requires GoodRuns(c, files, ascending, contents)
    ensures fresh(m) && m.Valid() && m.ascending == ascending && m.codec == c && Bag(m.Streams()) == Bag(contents)
  {
    hide Bag, SortedRun, FileOf, AllStorable;
    var runs := files;
    ghost var es := contents;
    while |runs| > MAX_FANIN
      invariant GoodRuns(c, runs, ascending, es) && Bag(es) == Bag(contents)
      decreases |runs|
    {
      runs, es := MergePass(c, runs, ascending, es);
    }
    m := new Merger.Prime(c, runs, ascending, es);
  }

  /** Merging any number of sorted runs yields a sorted permutation of all their entries. */
  method MergeAll(c: Codec, files: seq<File>, ascending: seq<bool>, ghost contents: seq<seq<Entry>>)
    returns (out: seq<Entry>)
    requires GoodRuns(c, files, ascending, contents)
    ensures SortedRun(ascending, out) && multiset(out) == Bag(contents)
  {
    hide Bag, SortedRun, Below, EntryLeq, StreamsOf;
    var m := NewMerge(c, files, ascending, contents);
    out := [];
    EmptySorted(ascending, Bag(contents));
    while true
      invariant m.Valid() && m.ascending == ascending && fresh(m)
      invariant SortedRun(ascending, out) && Below(ascending, out, Bag(m.Streams()))
      invariant multiset(out) + Bag(m.Streams()) == Bag(contents)
      decreases |Bag(m.Streams())|
    {
      ghost var bag := Bag(m.Streams());
      var e := m.Next();
      if e.None? {
        break;
      }
      PushSorted(ascending, out, e.value, bag);
      out := out + [e.value];
    }
  }
}
