/** Range scans of a B-tree index: padded composite bounds, buffered rows, and the final order. */
module BTreeScan {
  import opened Values
  import opened Schemas
  import opened Indexes
  import opened Ordered
  import opened Bounds
  import opened TransactionReads
  import opened IndexScans

  predicate ColumnsExist(cols: Columns, columns: seq<nat>)
  {
    forall i :: 0 <= i < |columns| ==> columns[i] < |cols|
  }

  function Parts(k: DbKey): seq<DbKey>
  {
    if k.KComposite? then k.parts else [k]
  }

  /** A bound on the leading columns, padded with the edges of the other columns and of the primary key. */
  function Padded(bound: DbKey, edges: seq<DbKey>, pkEdge: DbKey): DbKey
  {
    var parts := Parts(bound);
    KComposite(parts + (if |parts| <= |edges| then edges[|parts|..] else []) + [pkEdge])
  }

  method PadBounds(cols: Columns, columns: seq<nat>, start: DbKey, end: DbKey, lo: DbKey, hi: DbKey)
    returns (from: DbKey, to: DbKey)
    requires ColumnsExist(cols, columns) && |Parts(start)| == |Parts(end)|
    ensures from == Padded(start, Mins(cols, columns), lo) && to == Padded(end, Maxs(cols, columns), hi)
  {
    hide KeyBounds, Parts;
    var low, high := Parts(start), Parts(end);
    var p := |low|;
    if p <= |columns| {
      ghost var mins, maxs := Mins(cols, columns), Maxs(cols, columns);
      PadNothing(low, mins);
      PadNothing(high, maxs);
      for i := p to |columns|
        invariant low == Parts(start) + mins[p..i] && high == Parts(end) + maxs[p..i]
      {
        var (least, greatest) := KeyBounds(cols[columns[i]].dataType);
        PadStep(Parts(start), mins, p, i);
        PadStep(Parts(end), maxs, p, i);
        low, high := low + [least], high + [greatest];
      }
    }
    from, to := KComposite(low + [lo]), KComposite(high + [hi]);
  }

  lemma PadNothing(parts: seq<DbKey>, edges: seq<DbKey>)
    requires |parts| <= |edges|
    ensures parts + edges[|parts|..|parts|] == parts && edges[|parts|..|edges|] == edges[|parts|..]
  {
  }

  lemma PadStep(parts: seq<DbKey>, edges: seq<DbKey>, p: nat, i: nat)
    requires p <= i < |edges|
    ensures parts + edges[p..i] + [edges[i]] == parts + edges[p..i + 1]
  {
  }

  // ---------- What the scan returns ----------

  /** The primary keys of the index entries in a range. */
  function Hits(e: Engine, from: DbKey, to: DbKey): set<DbKey>
  {
    set x | x in e && InRange(x, from, to) && x.KComposite? && x.parts != [] :: PkOf(x)
  }

  /** The test for buffered rows: no index column null, and the leading one in range. */
  predicate LeadsInRange(columns: seq<nat>, start: DbKey, end: DbKey, row: Row)
  {
    && columns != []
    && (forall i :: 0 <= i < |columns| ==> ValueAt(row, columns[i]) != Null)
    && var k := ValueToKey(ValueAt(row, columns[0]));
       k.Some? && InRange(k.value, start, end)
  }

  function RowTest(columns: seq<nat>, start: DbKey, end: DbKey): Row -> bool
  {
    row => LeadsInRange(columns, start, end, row)
  }

  /** The row has an index key, and its leading parts, as many as the bounds have, lie between them. */
  predicate KeyInRange(columns: seq<nat>, start: DbKey, end: DbKey, row: Row)
  {
    var ks, low, high := KeyParts(columns, row), Parts(start), Parts(end);
    |ks| == |columns| && |low| == |high| <= |ks| && SeqLeq(low, ks[..|low|]) && SeqLeq(ks[..|low|], high)
  }

  /** The whole index key of a stored row, primary key included, lies within the padded bounds. */
  predicate KeyPadded(columns: seq<nat>, from: DbKey, to: DbKey, pk: DbKey, row: Row)
  {
    InRange(KComposite(KeyParts(columns, row) + [pk]), from, to)
  }

  /** The primary keys of a range of index entries, in entry order. */
  method CollectPks(def: IndexDef, stored: Table, entries: seq<(DbKey, Stored)>, from: DbKey, to: DbKey)
    returns (pks: seq<DbKey>)
    requires def.BTree? && entries == Listing(Within(Image(def, stored), from, to))
    ensures NoDuplicates(pks) && Elements(pks) == Hits(Image(def, stored), from, to)
  {
    hide Listing, Image;
    ghost var e := Image(def, stored);
    ListingFacts(Within(e, from, to));
    pks := [];
    for n := 0 to |entries|
      invariant |pks| == n
      invariant forall i :: 0 <= i < n ==> pks[i] == PkOf(entries[i].0)
      invariant NoDuplicates(pks)
    {
      var (x, v) := entries[n];
      forall i | 0 <= i < n ensures pks[i] != PkOf(x) {
        assert entries[i] in entries && entries[n] in entries;
        assert Less(KeysOf(entries)[i], KeysOf(entries)[n]);
        OneEntryPerRow(def, stored, entries[i].0, x);
      }
      pks := pks + [PkOf(x)];
    }
    PksAreHits(def, stored, entries, from, to, pks);
  }

  lemma PksAreHits(def: IndexDef, stored: Table, entries: seq<(DbKey, Stored)>, from: DbKey, to: DbKey, pks: seq<DbKey>)
    requires def.BTree? && entries == Listing(Within(Image(def, stored), from, to))
    requires |pks| == |entries| && forall i :: 0 <= i < |pks| ==> pks[i] == PkOf(entries[i].0)
    ensures Elements(pks) == Hits(Image(def, stored), from, to)
  {
    hide Listing, Image, InRange, Ascending;
    var e := Image(def, stored);
    ListingFacts(Within(e, from, to));
    forall pk | pk in pks ensures pk in Hits(e, from, to) {
      var i :| 0 <= i < |pks| && pks[i] == pk;
      assert entries[i] in entries;
      EntryShape(def, stored, entries[i].0);
    }
    forall pk | pk in Hits(e, from, to) ensures pk in pks {
      var x :| x in e && InRange(x, from, to) && PkOf(x) == pk;
      assert (x, e[x]) in entries;
      var i :| 0 <= i < |entries| && entries[i] == (x, e[x]);
      assert pks[i] == pk;
    }
  }

  lemma EntryShape(def: IndexDef, stored: Table, x: DbKey)
    requires def.BTree? && x in Image(def, stored)
    ensures PkOf(x) in stored && |KeyParts(def.columns, stored[PkOf(x)])| == |def.columns|
    ensures x == KComposite(KeyParts(def.columns, stored[PkOf(x)]) + [PkOf(x)])
  {
    assert Lookup(Image(def, stored), x) == EntryAt(def, Lookup(stored, PkOf(x)), x);
  }

  lemma OneEntryPerRow(def: IndexDef, stored: Table, x: DbKey, y: DbKey)
    requires def.BTree? && x in Image(def, stored) && y in Image(def, stored) && x != y
    ensures PkOf(x) != PkOf(y)
  {
    EntryShape(def, stored, x);
    EntryShape(def, stored, y);
  }

  /** A stored row is hit exactly when it has an index key within the padded bounds. */
  lemma HitIff(def: IndexDef, stored: Table, from: DbKey, to: DbKey, pk: DbKey)
    requires def.BTree?
    ensures pk in Hits(Image(def, stored), from, to) <==>
            pk in stored && |KeyParts(def.columns, stored[pk])| == |def.columns| && KeyPadded(def.columns, from, to, pk, stored[pk])
  {
    var e := Image(def, stored);
    if pk in Hits(e, from, to) {
      var x :| x in e && InRange(x, from, to) && PkOf(x) == pk;
      EntryShape(def, stored, x);
    }
    if pk in stored && |KeyParts(def.columns, stored[pk])| == |def.columns| && KeyPadded(def.columns, from, to, pk, stored[pk]) {
      var x := KComposite(KeyParts(def.columns, stored[pk]) + [pk]);
      assert PkOf(x) == pk;
      assert Lookup(e, x) == EntryAt(def, Lookup(stored, pk), x);
      assert x in e;
    }
  }

  lemma {:induction false} KeyPartsAll(columns: seq<nat>, row: Row)
    ensures |KeyParts(columns, row)| == |columns| <==>
            forall i :: 0 <= i < |columns| ==> ValueToKey(ValueAt(row, columns[i])).Some?
    ensures |KeyParts(columns, row)| == |columns| ==>
            forall i :: 0 <= i < |columns| ==> Some(KeyParts(columns, row)[i]) == ValueToKey(ValueAt(row, columns[i]))
  {
    if columns != [] {
      var n := |columns| - 1;
      var front := KeyParts(columns[..n], row);
      KeyPartsAll(columns[..n], row);
      var k := ValueToKey(ValueAt(row, columns[n]));
      hide KeyParts, ValueAt, ValueToKey;
      assert forall i :: 0 <= i < n ==> columns[..n][i] == columns[i];
      if |front| == n && k.Some? {
        assert KeyParts(columns, row) == front + [k.value];
      }
    }
  }

  lemma {:induction false} PrefixLeq(p: seq<DbKey>, x: seq<DbKey>, q: seq<DbKey>, y: seq<DbKey>)
    requires |p| == |q| && SeqLeq(p + x, q + y)
    ensures SeqLeq(p, q)
  {
    if p != [] && p[0] == q[0] {
      assert (p + x)[1..] == p[1..] + x && (q + y)[1..] == q[1..] + y;
      PrefixLeq(p[1..], x, q[1..], y);
    }
  }

  lemma {:induction false} AppendLeq(p: seq<DbKey>, x: seq<DbKey>, q: seq<DbKey>, y: seq<DbKey>)
    requires |p| == |q| && SeqLeq(p, q) && SeqLeq(x, y)
    ensures SeqLeq(p + x, q + y)
  {
    if p == [] {
      assert p + x == x && q + y == y;
    } else if p[0] == q[0] {
      assert (p + x)[1..] == p[1..] + x && (q + y)[1..] == q[1..] + y;
      AppendLeq(p[1..], x, q[1..], y);
    }
  }

  /** A key within the padded bounds has its leading parts between the bounds. */
  lemma PaddedLeads(columns: seq<nat>, start: DbKey, end: DbKey, mins: seq<DbKey>, maxs: seq<DbKey>, lo: DbKey,
      hi: DbKey, pk: DbKey, row: Row)
    requires |Parts(start)| == |Parts(end)| <= |columns| == |mins| == |maxs|
    requires |KeyParts(columns, row)| == |columns|
    requires KeyPadded(columns, Padded(start, mins, lo), Padded(end, maxs, hi), pk, row)
    ensures KeyInRange(columns, start, end, row)
  {
    var ks, n := KeyParts(columns, row), |Parts(start)|;
    PaddedParts(start, mins, lo);
    PaddedParts(end, maxs, hi);
    var low, high := mins[n..] + [lo], maxs[n..] + [hi];
    hide SeqLeq, KeyParts, Padded, Parts;
    CompositeLeq(Parts(start) + low, ks + [pk]);
    CompositeLeq(ks + [pk], Parts(end) + high);
    assert ks + [pk] == ks[..n] + (ks[n..] + [pk]);
    PrefixLeq(Parts(start), low, ks[..n], ks[n..] + [pk]);
    PrefixLeq(ks[..n], ks[n..] + [pk], Parts(end), high);
  }

  /** A key whose trailing parts and primary key lie within their own bounds is never lost by padding. */
  lemma PaddedCovers(cols: Columns, columns: seq<nat>, start: DbKey, end: DbKey, lo: DbKey, hi: DbKey, pk: DbKey,
      row: Row)
    requires ColumnsExist(cols, columns)
    requires KeyInRange(columns, start, end, row) && InRange(pk, lo, hi)
    requires forall i :: |Parts(start)| <= i < |columns| ==> WithinType(KeyParts(columns, row)[i], cols[columns[i]].dataType)
    ensures KeyPadded(columns, Padded(start, Mins(cols, columns), lo), Padded(end, Maxs(cols, columns), hi), pk, row)
  {
    var ks, n, mins, maxs := KeyParts(columns, row), |Parts(start)|, Mins(cols, columns), Maxs(cols, columns);
    assert SeqLeq(Parts(start), ks[..n]) && SeqLeq(ks[..n], Parts(end)) && |Parts(end)| == n <= |ks| == |columns|;
    assert |mins| == |maxs| == |columns|;
    hide *;
    TrailingLeq(cols, columns, ks, n, lo, hi, pk);
    PaddedBelow(start, mins, lo, ks, pk);
    PaddedAbove(end, maxs, hi, ks, pk);
    KeyPaddedIs(columns, Padded(start, mins, lo), Padded(end, maxs, hi), pk, row);
  }

  lemma PaddedBelow(bound: DbKey, edges: seq<DbKey>, edge: DbKey, ks: seq<DbKey>, pk: DbKey)
    requires |Parts(bound)| <= |edges| == |ks| && SeqLeq(Parts(bound), ks[..|Parts(bound)|])
    requires SeqLeq(edges[|Parts(bound)|..] + [edge], ks[|Parts(bound)|..] + [pk])
    ensures Leq(Padded(bound, edges, edge), KComposite(ks + [pk]))
  {
    hide *;
    var n := |Parts(bound)|;
    PaddedParts(bound, edges, edge);
    AppendLeq(Parts(bound), edges[n..] + [edge], ks[..n], ks[n..] + [pk]);
    assert ks[..n] + (ks[n..] + [pk]) == ks + [pk];
    CompositeLeq(Parts(bound) + (edges[n..] + [edge]), ks + [pk]);
  }

  lemma PaddedAbove(bound: DbKey, edges: seq<DbKey>, edge: DbKey, ks: seq<DbKey>, pk: DbKey)
    requires |Parts(bound)| <= |edges| == |ks| && SeqLeq(ks[..|Parts(bound)|], Parts(bound))
    requires SeqLeq(ks[|Parts(bound)|..] + [pk], edges[|Parts(bound)|..] + [edge])
    ensures Leq(KComposite(ks + [pk]), Padded(bound, edges, edge))
  {
    hide *;
    var n := |Parts(bound)|;
    PaddedParts(bound, edges, edge);
    AppendLeq(ks[..n], ks[n..] + [pk], Parts(bound), edges[n..] + [edge]);
    assert ks[..n] + (ks[n..] + [pk]) == ks + [pk];
    CompositeLeq(ks + [pk], Parts(bound) + (edges[n..] + [edge]));
  }

  lemma KeyPaddedIs(columns: seq<nat>, from: DbKey, to: DbKey, pk: DbKey, row: Row)
    ensures KeyPadded(columns, from, to, pk, row) <==>
            Leq(from, KComposite(KeyParts(columns, row) + [pk])) && Leq(KComposite(KeyParts(columns, row) + [pk]), to)
  {
  }

  lemma TrailingLeq(cols: Columns, columns: seq<nat>, ks: seq<DbKey>, n: nat, lo: DbKey, hi: DbKey, pk: DbKey)
    requires ColumnsExist(cols, columns) && n <= |columns| == |ks| && InRange(pk, lo, hi)
    requires forall i :: n <= i < |columns| ==> WithinType(ks[i], cols[columns[i]].dataType)
    ensures SeqLeq(Mins(cols, columns)[n..] + [lo], ks[n..] + [pk])
    ensures SeqLeq(ks[n..] + [pk], Maxs(cols, columns)[n..] + [hi])
  {
    var low, high, rest := Mins(cols, columns)[n..] + [lo], Maxs(cols, columns)[n..] + [hi], ks[n..] + [pk];
    hide Leq, SeqLeq, KeyBounds;
    forall i | 0 <= i < |rest| ensures Leq(low[i], rest[i]) && Leq(rest[i], high[i]) {
      if n + i < |columns| {
        TrailingWithin(cols, columns, ks, n + i);
      }
    }
    PointwiseLeq(low, rest);
    PointwiseLeq(rest, high);
  }

  lemma TrailingWithin(cols: Columns, columns: seq<nat>, ks: seq<DbKey>, i: nat)
    requires ColumnsExist(cols, columns) && i < |columns| == |ks| && WithinType(ks[i], cols[columns[i]].dataType)
    ensures Leq(Mins(cols, columns)[i], ks[i]) && Leq(ks[i], Maxs(cols, columns)[i])
  {
    hide Leq, KeyBounds;
  }

  lemma PaddedParts(bound: DbKey, edges: seq<DbKey>, pkEdge: DbKey)
    requires |Parts(bound)| <= |edges|
    ensures Padded(bound, edges, pkEdge) == KComposite(Parts(bound) + (edges[|Parts(bound)|..] + [pkEdge]))
  {
  }

  lemma CompositeLeq(p: seq<DbKey>, q: seq<DbKey>)
    ensures Leq(KComposite(p), KComposite(q)) <==> SeqLeq(p, q)
  {
  }

  // ---------- The scan ----------

  /** The key a row sorts by in one column; a value without a key counts as zero. */
  function SortPart(row: Row, column: nat): DbKey
  {
    GetOr(ValueToKey(ValueAt(row, column)), KInt(0))
  }

  /** Up to column c the rows sort alike, and there a comes first; behind the last column the primary
      keys decide. */
  ghost predicate FirstAt(columns: seq<nat>, a: (DbKey, Row), b: (DbKey, Row), c: nat)
  {
    && c <= |columns|
    && (forall d :: 0 <= d < c ==> SortPart(a.1, columns[d]) == SortPart(b.1, columns[d]))
    && if c < |columns| then Less(SortPart(a.1, columns[c]), SortPart(b.1, columns[c])) else Less(a.0, b.0)
  }

  ghost predicate Precedes(columns: seq<nat>, a: (DbKey, Row), b: (DbKey, Row))
  {
    exists c: nat :: FirstAt(columns, a, b, c)
  }

  /** Each row precedes every later one. */
  ghost predicate IndexOrdered(columns: seq<nat>, rows: seq<(DbKey, Row)>)
  {
    forall i, j :: 0 <= i < j < |rows| ==> Precedes(columns, rows[i], rows[j])
  }

  /** The key that the rows are sorted by. */
  function OrderKey(columns: seq<nat>, r: (DbKey, Row)): DbKey
  {
    var keys := SortParts(columns, r.1);
    KComposite([if |columns| == 1 then keys[0] else KComposite(keys), r.0])
  }

  function SortParts(columns: seq<nat>, row: Row): seq<DbKey>
  {
    seq(|columns|, i requires 0 <= i < |columns| => SortPart(row, columns[i]))
  }

  ghost predicate DiffersAt(p: seq<DbKey>, q: seq<DbKey>, c: nat)
  {
    c < |p| && c < |q| && (forall d :: 0 <= d < c ==> p[d] == q[d]) && Less(p[c], q[c])
  }

  lemma {:induction false} SeqLessAt(p: seq<DbKey>, q: seq<DbKey>)
    requires |p| == |q|
    ensures SeqLeq(p, q) && p != q <==> exists c: nat :: DiffersAt(p, q, c)
  {
    if p != [] {
      assert p == [p[0]] + p[1..] && q == [q[0]] + q[1..];
      if p[0] == q[0] {
        SeqLessAt(p[1..], q[1..]);
        if c: nat :| DiffersAt(p[1..], q[1..], c) {
          var d := c + 1;
          assert DiffersAt(p, q, d);
        }
        if c: nat :| DiffersAt(p, q, c) {
          var d: nat := c - 1;
          assert DiffersAt(p[1..], q[1..], d);
        }
      } else {
        assert DiffersAt(p, q, 0) <==> Leq(p[0], q[0]);
        assert forall c: nat :: DiffersAt(p, q, c) ==> c == 0;
      }
    }
  }

  /** The order of rows is that of their sort keys with the primary key behind them. */
  lemma PrecedesIff(columns: seq<nat>, a: (DbKey, Row), b: (DbKey, Row))
    ensures Precedes(columns, a, b) <==> Less(KComposite(SortParts(columns, a.1) + [a.0]), KComposite(SortParts(columns, b.1) + [b.0]))
  {
    hide SortPart, Leq, SeqLeq;
    var p, q := SortParts(columns, a.1) + [a.0], SortParts(columns, b.1) + [b.0];
    assert forall d :: 0 <= d < |columns| ==> p[d] == SortPart(a.1, columns[d]) && q[d] == SortPart(b.1, columns[d]);
    assert p[|columns|] == a.0 && q[|columns|] == b.0;
    assert forall c: nat :: FirstAt(columns, a, b, c) <==> DiffersAt(p, q, c);
    SeqLessAt(p, q);
    CompositeLeq(p, q);
  }

  lemma OrderKeyPrecedes(columns: seq<nat>, a: (DbKey, Row), b: (DbKey, Row))
    requires a.0 != b.0 && Leq(OrderKey(columns, a), OrderKey(columns, b))
    ensures Precedes(columns, a, b)
  {
    var p, q := SortParts(columns, a.1), SortParts(columns, b.1);
    OrderKeySplits(p, q, a.0, b.0);
    hide SortPart, Leq, SeqLeq, Precedes;
    CompositeLeq(p + [a.0], q + [b.0]);
    assert (p + [a.0])[|p|] == a.0 && (q + [b.0])[|q|] == b.0;
    PrecedesIff(columns, a, b);
  }

  lemma PairLeq(k: DbKey, x: DbKey, l: DbKey, y: DbKey)
    requires Leq(KComposite([k, x]), KComposite([l, y]))
    ensures if k == l then Leq(x, y) else Leq(k, l)
  {
    CompositeLeq([k, x], [l, y]);
    assert [k, x][1..] == [x] && [l, y][1..] == [y];
    SingleLeq(x, y);
    hide Leq;
    if k == l {
      assert SeqLeq([x], [y]);
    }
  }

  lemma OneOrMany(p: seq<DbKey>, q: seq<DbKey>)
    requires |p| == |q|
    ensures var k, l := if |p| == 1 then p[0] else KComposite(p), if |q| == 1 then q[0] else KComposite(q);
            (k == l <==> p == q) && (Leq(k, l) ==> SeqLeq(p, q))
  {
    if |p| == 1 {
      assert p == [p[0]] && q == [q[0]];
      SingleLeq(p[0], q[0]);
    }
  }

  lemma OrderKeySplits(p: seq<DbKey>, q: seq<DbKey>, x: DbKey, y: DbKey)
    requires |p| == |q|
    requires Leq(KComposite([if |p| == 1 then p[0] else KComposite(p), x]), KComposite([if |q| == 1 then q[0] else KComposite(q), y]))
    ensures SeqLeq(p + [x], q + [y])
  {
    hide *;
    PairLeq(if |p| == 1 then p[0] else KComposite(p), x, if |q| == 1 then q[0] else KComposite(q), y);
    OneOrMany(p, q);
    if p == q {
      SeqRefl(p);
      SingleLeq(x, y);
      AppendLeq(p, [x], q, [y]);
    } else {
      PrefixDecides(p, [x], q, [y]);
    }
  }

  lemma {:induction false} SeqRefl(p: seq<DbKey>)
    ensures SeqLeq(p, p)
  {
    if p != [] {
      SeqRefl(p[1..]);
    }
  }

  lemma {:induction false} PrefixDecides(p: seq<DbKey>, x: seq<DbKey>, q: seq<DbKey>, y: seq<DbKey>)
    requires |p| == |q| && p != q && SeqLeq(p, q)
    ensures SeqLeq(p + x, q + y)
  {
    if p != [] && p[0] == q[0] {
      assert p == [p[0]] + p[1..] && q == [q[0]] + q[1..];
      assert (p + x)[1..] == p[1..] + x && (q + y)[1..] == q[1..] + y;
      PrefixDecides(p[1..], x, q[1..], y);
    }
  }

  /** Rows with a full index key come in the order of their index entries. */
  lemma EntriesInOrder(columns: seq<nat>, a: (DbKey, Row), b: (DbKey, Row))
    requires |KeyParts(columns, a.1)| == |columns| == |KeyParts(columns, b.1)|
    ensures Precedes(columns, a, b) <==> Less(KComposite(KeyParts(columns, a.1) + [a.0]), KComposite(KeyParts(columns, b.1) + [b.0]))
  {
    hide Precedes, Leq, KeyParts;
    PrecedesIff(columns, a, b);
    KeyPartsAll(columns, a.1);
    KeyPartsAll(columns, b.1);
    assert SortParts(columns, a.1) == KeyParts(columns, a.1);
    assert SortParts(columns, b.1) == KeyParts(columns, b.1);
  }

  lemma OrderedByKeys(columns: seq<nat>, rows: seq<(DbKey, Row)>)
    requires InOrder(columns, rows) && NoDuplicates(KeysOf(rows))
    ensures IndexOrdered(columns, rows)
  {
    hide OrderKey, Leq, Precedes;
    forall i, j | 0 <= i < j < |rows| ensures Precedes(columns, rows[i], rows[j]) {
      assert KeysOf(rows)[i] != KeysOf(rows)[j];
      OrderKeyPrecedes(columns, rows[i], rows[j]);
    }
  }

  predicate InOrder(columns: seq<nat>, rows: seq<(DbKey, Row)>)
  {
    forall i, j :: 0 <= i < j < |rows| ==> Leq(OrderKey(columns, rows[i]), OrderKey(columns, rows[j]))
  }

  method SortRows(columns: seq<nat>, rows: seq<(DbKey, Row)>) returns (sorted: seq<(DbKey, Row)>)
    ensures InOrder(columns, sorted) && multiset(sorted) == multiset(rows)
  {
    hide OrderKey;
    sorted := [];
    for n := 0 to |rows|
      invariant InOrder(columns, sorted) && multiset(sorted) == multiset(rows[..n])
    {
      assert rows[..n + 1] == rows[..n] + [rows[n]];
      sorted := InsertRow(columns, sorted, rows[n]);
    }
    assert rows[..|rows|] == rows;
  }

  method InsertRow(columns: seq<nat>, rows: seq<(DbKey, Row)>, r: (DbKey, Row)) returns (out: seq<(DbKey, Row)>)
    requires InOrder(columns, rows)
    ensures InOrder(columns, out) && multiset(out) == multiset(rows) + multiset{r}
  {
    hide OrderKey, Leq;
    var i := |rows|;
    while i > 0 && !Leq(OrderKey(columns, rows[i - 1]), OrderKey(columns, r))
      invariant 0 <= i <= |rows|
      invariant forall j :: i <= j < |rows| ==> Leq(OrderKey(columns, r), OrderKey(columns, rows[j]))
    {
      LeqTotal(OrderKey(columns, rows[i - 1]), OrderKey(columns, r));
      i := i - 1;
    }
    forall j | 0 <= j < i ensures Leq(OrderKey(columns, rows[j]), OrderKey(columns, r)) {
      if j < i - 1 {
        LeqTrans(OrderKey(columns, rows[j]), OrderKey(columns, rows[i - 1]), OrderKey(columns, r));
      }
    }
    assert rows == rows[..i] + rows[i..];
    out := rows[..i] + [r] + rows[i..];
    InsertedInOrder(columns, rows, r, i);
  }

  lemma InsertedInOrder(columns: seq<nat>, rows: seq<(DbKey, Row)>, r: (DbKey, Row), i: nat)
    requires InOrder(columns, rows) && i <= |rows|
    requires forall j :: 0 <= j < i ==> Leq(OrderKey(columns, rows[j]), OrderKey(columns, r))
    requires forall j :: i <= j < |rows| ==> Leq(OrderKey(columns, r), OrderKey(columns, rows[j]))
    ensures InOrder(columns, rows[..i] + [r] + rows[i..])
  {
    hide OrderKey, Leq;
    var out := rows[..i] + [r] + rows[i..];
    forall p, q | 0 <= p < q < |out| ensures Leq(OrderKey(columns, out[p]), OrderKey(columns, out[q])) {
      var p', q' := if p < i then p else p - 1, if q < i then q else q - 1;
      if p != i && q != i {
        assert out[p] == rows[p'] && out[q] == rows[q'];
      }
    }
  }

  lemma SameRows(a: seq<(DbKey, Row)>, b: seq<(DbKey, Row)>)
    requires multiset(a) == multiset(b) && NoDuplicates(KeysOf(a))
    ensures NoDuplicates(KeysOf(b)) && forall r :: r in a <==> r in b
  {
    forall r ensures r in a <==> r in b {
      assert r in multiset(a) <==> r in multiset(b);
    }
    assert forall r :: r in b ==> multiset(b)[r] == 1 by {
      forall r | r in b ensures multiset(a)[r] == 1 {
        CountOne(a, r);
      }
    }
    forall i, j | 0 <= i < j < |b| ensures KeysOf(b)[i] != KeysOf(b)[j] {
      assert b[i] in a && b[j] in a;
      SameKeySameRow(a, b[i], b[j]);
      if b[i] == b[j] {
        TwoPlaces(b, i, j);
      }
    }
  }

  lemma SameKeySameRow(a: seq<(DbKey, Row)>, x: (DbKey, Row), y: (DbKey, Row))
    requires NoDuplicates(KeysOf(a)) && x in a && y in a
    ensures x.0 == y.0 ==> x == y
  {
    var p, q :| 0 <= p < |a| && a[p] == x && 0 <= q < |a| && a[q] == y;
    assert p != q ==> KeysOf(a)[p] != KeysOf(a)[q];
  }

  lemma CountOne(a: seq<(DbKey, Row)>, r: (DbKey, Row))
    requires NoDuplicates(KeysOf(a)) && r in a
    ensures multiset(a)[r] == 1
  {
    var p :| 0 <= p < |a| && a[p] == r;
    assert a == a[..p] + [r] + a[p + 1..];
    forall q | 0 <= q < |a| && q != p ensures a[q] != r {
      assert KeysOf(a)[q] != KeysOf(a)[p];
    }
    assert r !in a[..p] && r !in a[p + 1..];
  }

  lemma TwoPlaces(b: seq<(DbKey, Row)>, i: nat, j: nat)
    requires i < j < |b| && b[i] == b[j]
    ensures multiset(b)[b[i]] >= 2
  {
    assert b == b[..i] + [b[i]] + b[i + 1..j] + [b[j]] + b[j + 1..];
  }

  /** The scan: None exactly without a primary key; otherwise the gathered rows in index order. */
  method IndexScan(tx: Transaction, table: string, index: string, cols: Columns, def: IndexDef, stored: Table,
      e: Engine,
      start: DbKey, end: DbKey) returns (rows: Option<seq<(DbKey, Row)>>)
    requires def.BTree? && ColumnsExist(cols, def.columns) && e == Image(def, stored)
    requires |Parts(start)| == |Parts(end)|
    modifies tx`readSet, tx`scanRanges
    ensures rows.None? <==> PrimaryKeyBounds(cols).None?
    ensures rows.Some? ==>
      var (lo, hi) := PrimaryKeyBounds(cols).value;
      var from, to := Padded(start, Mins(cols, def.columns), lo), Padded(end, Maxs(cols, def.columns), hi);
      && IndexOrdered(def.columns, rows.value) && NoDuplicates(KeysOf(rows.value))
      && (forall pk, row :: (pk, row) in rows.value <==>
           Returned(cols, def.columns, stored, tx.Buffered(table), start, end, lo, hi, pk, row))
      && (tx.level == SnapshotIsolation ==> (from, to) in tx.RangesOf(table + ".index." + index))
      && (tx.level == SnapshotIsolation || tx.level == RepeatableRead ==>
           ScanHits(cols, def.columns, stored, start, end, lo, hi) - tx.Buffered(table).Keys <= tx.ReadsOf(table))
  {
    hide Image, InOrder, IndexOrdered, Gathered;
    var bounds := PrimaryKeyBounds(cols);
    if bounds.None? {
      return None;
    }
    var (lo, hi) := bounds.value;
    var from, to := PadBounds(cols, def.columns, start, end, lo, hi);
    tx.TrackRange(table + ".index." + index, from, to);
    var entries := FilteredScan(e, from, to);
    var pks := CollectPks(def, stored, entries, from, to);
    var want := RowTest(def.columns, start, end);
    var found := Gather(tx, table, stored, pks, want);
    var sorted := SortRows(def.columns, found);
    GatheringSorted(tx.View(table, stored), tx.Buffered(table), Elements(pks), want, found, sorted);
    OrderedByKeys(def.columns, sorted);
    rows := Some(sorted);
  }

  lemma GatheringSorted(view: Table, buf: Changes, hits: set<DbKey>, want: Row -> bool, a: seq<(DbKey, Row)>,
      b: seq<(DbKey, Row)>)
    requires IsGathering(view, buf, hits, want, a) && multiset(a) == multiset(b)
    ensures IsGathering(view, buf, hits, want, b)
  {
    SameRows(a, b);
  }

  // ---------- Exactness ----------

  /** The primary keys hit by a scan of the index of a table. */
  ghost function ScanHits(cols: Columns, columns: seq<nat>, stored: Table, start: DbKey, end: DbKey, lo: DbKey,
      hi: DbKey): set<DbKey>
    requires ColumnsExist(cols, columns)
  {
    Hits(Image(BTree(columns), stored), Padded(start, Mins(cols, columns), lo), Padded(end, Maxs(cols, columns), hi))
  }

  ghost predicate Returned(cols: Columns, columns: seq<nat>, stored: Table, buf: Changes, start: DbKey, end: DbKey,
      lo: DbKey, hi: DbKey,
      pk: DbKey, row: Row)
    requires ColumnsExist(cols, columns)
  {
    Gathered(Patch(stored, buf), buf, ScanHits(cols, columns, stored, start, end, lo, hi), RowTest(columns, start, end), pk, row)
  }

  lemma HitLeads(cols: Columns, columns: seq<nat>, stored: Table, start: DbKey, end: DbKey, lo: DbKey, hi: DbKey,
      pk: DbKey)
    requires ColumnsExist(cols, columns) && |Parts(start)| == |Parts(end)| <= |columns|
    requires pk in ScanHits(cols, columns, stored, start, end, lo, hi)
    ensures pk in stored && KeyInRange(columns, start, end, stored[pk])
  {
    hide Image, Hits;
    var from, to := Padded(start, Mins(cols, columns), lo), Padded(end, Maxs(cols, columns), hi);
    HitIff(BTree(columns), stored, from, to, pk);
    PaddedLeads(columns, start, end, Mins(cols, columns), Maxs(cols, columns), lo, hi, pk, stored[pk]);
  }

  lemma SingleLeq(a: DbKey, b: DbKey)
    ensures SeqLeq([a], [b]) <==> Leq(a, b)
  {
    LeqRefl(a);
  }

  lemma KeyInRangeSingle(columns: seq<nat>, start: DbKey, end: DbKey, row: Row)
    requires columns != [] && !start.KComposite? && !end.KComposite?
    ensures KeyInRange(columns, start, end, row) <==>
            |KeyParts(columns, row)| == |columns| && InRange(KeyParts(columns, row)[0], start, end)
  {
    var ks := KeyParts(columns, row);
    if |ks| == |columns| {
      assert ks[..1] == [ks[0]];
      SingleLeq(start, ks[0]);
      SingleLeq(ks[0], end);
    }
  }

  /** For bounds on the leading column alone, a buffered row passes the row test when its index key is
      in range; the converse fails only when a trailing index column holds a value without a key. */
  lemma RowTestIff(columns: seq<nat>, start: DbKey, end: DbKey, row: Row)
    requires columns != [] && !start.KComposite? && !end.KComposite?
    ensures KeyInRange(columns, start, end, row) <==>
            LeadsInRange(columns, start, end, row) && forall i :: 1 <= i < |columns| ==> ValueToKey(ValueAt(row, columns[i])).Some?
  {
    KeyInRangeSingle(columns, start, end, row);
    hide KeyParts, KeyInRange;
    KeyPartsAll(columns, row);
  }

  /** Under bounds that are not composite, a row in range passes the row test. */
  lemma InRangePasses(columns: seq<nat>, start: DbKey, end: DbKey, row: Row)
    requires columns != [] && !start.KComposite? && KeyInRange(columns, start, end, row)
    ensures LeadsInRange(columns, start, end, row)
  {
    var ks := KeyParts(columns, row);
    KeyPartsAll(columns, row);
    assert ks[..1] == [ks[0]];
    SingleLeq(start, ks[0]);
    if end.KComposite? {
      assert Rank(ks[0]) < Rank(end);
    } else {
      SingleLeq(ks[0], end);
    }
  }

  /** With a composite start bound no buffered row passes the row test: a row's leading key is never
      composite, and every composite key comes after it. */
  lemma CompositeBoundsSkipBuffer(columns: seq<nat>, start: DbKey, end: DbKey, row: Row)
    requires start.KComposite?
    ensures !LeadsInRange(columns, start, end, row)
  {
    if columns != [] {
      var k := ValueToKey(ValueAt(row, columns[0]));
      assert k.Some? ==> Rank(k.value) < Rank(start);
    }
  }

  /** The only rows returned beyond the range are buffered ones: a stored version was in range, or, for
      bounds on the leading column, a trailing index column has no key. */
  lemma ExtrasAreBuffered(cols: Columns, columns: seq<nat>, stored: Table, buf: Changes, start: DbKey, end: DbKey,
      lo: DbKey, hi: DbKey,
      pk: DbKey, row: Row)
    requires ColumnsExist(cols, columns) && |Parts(start)| == |Parts(end)| <= |columns| && (start.KComposite? <==> end.KComposite?)
    requires Returned(cols, columns, stored, buf, start, end, lo, hi, pk, row) && !KeyInRange(columns, start, end, row)
    ensures pk in buf
    ensures (pk in stored && KeyInRange(columns, start, end, stored[pk])) ||
            (!start.KComposite? && exists i :: 1 <= i < |columns| && ValueToKey(ValueAt(row, columns[i])).None?)
  {
    hide ScanHits, KeyInRange, LeadsInRange;
    if pk in ScanHits(cols, columns, stored, start, end, lo, hi) {
      HitLeads(cols, columns, stored, start, end, lo, hi, pk);
    } else if start.KComposite? {
      CompositeBoundsSkipBuffer(columns, start, end, row);
    } else {
      RowTestIff(columns, start, end, row);
    }
  }

  /** An unbuffered stored row in range that the padded bounds leave out. */
  ghost predicate Missed(cols: Columns, columns: seq<nat>, stored: Table, buf: Changes, start: DbKey, end: DbKey,
      lo: DbKey, hi: DbKey, pk: DbKey)
    requires ColumnsExist(cols, columns)
  {
    && pk in stored && pk !in buf && KeyInRange(columns, start, end, stored[pk])
    && !KeyPadded(columns, Padded(start, Mins(cols, columns), lo), Padded(end, Maxs(cols, columns), hi), pk, stored[pk])
  }

  /** The stored version of a row has an index key within the padded bounds. */
  ghost predicate StoredHit(cols: Columns, columns: seq<nat>, stored: Table, start: DbKey, end: DbKey, lo: DbKey,
      hi: DbKey, pk: DbKey)
    requires ColumnsExist(cols, columns)
  {
    && pk in stored && |KeyParts(columns, stored[pk])| == |columns|
    && KeyPadded(columns, Padded(start, Mins(cols, columns), lo), Padded(end, Maxs(cols, columns), hi), pk, stored[pk])
  }

  /** Under a composite start bound, a buffered row in range whose stored version the padded range does
      not hit. */
  ghost predicate Lost(cols: Columns, columns: seq<nat>, stored: Table, buf: Changes, start: DbKey, end: DbKey,
      lo: DbKey, hi: DbKey, pk: DbKey)
    requires ColumnsExist(cols, columns)
  {
    && start.KComposite? && pk in buf && buf[pk].Some? && KeyInRange(columns, start, end, buf[pk].value)
    && !StoredHit(cols, columns, stored, start, end, lo, hi, pk)
  }

  ghost predicate Dropped(cols: Columns, columns: seq<nat>, stored: Table, buf: Changes, start: DbKey, end: DbKey,
      lo: DbKey, hi: DbKey, pk: DbKey)
    requires ColumnsExist(cols, columns)
  {
    || Missed(cols, columns, stored, buf, start, end, lo, hi, pk)
    || Lost(cols, columns, stored, buf, start, end, lo, hi, pk)
  }

  lemma ReturnedUnbuffered(cols: Columns, columns: seq<nat>, stored: Table, buf: Changes, start: DbKey, end: DbKey,
      lo: DbKey, hi: DbKey,
      pk: DbKey, row: Row)
    requires ColumnsExist(cols, columns) && pk !in buf
    requires Lookup(Patch(stored, buf), pk) == Some(row) && KeyInRange(columns, start, end, row)
    ensures Returned(cols, columns, stored, buf, start, end, lo, hi, pk, row) <==> !Dropped(cols, columns, stored, buf, start, end, lo, hi, pk)
  {
    hide Image, Hits, KeyParts, LeadsInRange, SeqLeq;
    HitIff(BTree(columns), stored, Padded(start, Mins(cols, columns), lo), Padded(end, Maxs(cols, columns), hi), pk);
  }

  lemma ReturnedBuffered(cols: Columns, columns: seq<nat>, stored: Table, buf: Changes, start: DbKey, end: DbKey,
      lo: DbKey, hi: DbKey,
      pk: DbKey, row: Row)
    requires ColumnsExist(cols, columns) && columns != [] && pk in buf
    requires Lookup(Patch(stored, buf), pk) == Some(row) && KeyInRange(columns, start, end, row)
    ensures Returned(cols, columns, stored, buf, start, end, lo, hi, pk, row) <==> !Dropped(cols, columns, stored, buf, start, end, lo, hi, pk)
  {
    hide *;
    StoredHitIff(cols, columns, stored, start, end, lo, hi, pk);
    NotMissed(cols, columns, stored, buf, start, end, lo, hi, pk);
    DroppedIff(cols, columns, stored, buf, start, end, lo, hi, pk);
    LostIff(cols, columns, stored, buf, start, end, lo, hi, pk, row);
    ReturnedIs(cols, columns, stored, buf, start, end, lo, hi, pk, row);
    if start.KComposite? {
      CompositeBoundsSkipBuffer(columns, start, end, row);
    } else {
      InRangePasses(columns, start, end, row);
    }
  }

  lemma ReturnedIs(cols: Columns, columns: seq<nat>, stored: Table, buf: Changes, start: DbKey, end: DbKey, lo: DbKey,
      hi: DbKey, pk: DbKey, row: Row)
    requires ColumnsExist(cols, columns) && pk in buf && Lookup(Patch(stored, buf), pk) == Some(row)
    ensures Returned(cols, columns, stored, buf, start, end, lo, hi, pk, row) <==>
            pk in ScanHits(cols, columns, stored, start, end, lo, hi) || LeadsInRange(columns, start, end, row)
  {
    hide ScanHits, LeadsInRange, Patch;
  }

  lemma DroppedIff(cols: Columns, columns: seq<nat>, stored: Table, buf: Changes, start: DbKey, end: DbKey, lo: DbKey,
      hi: DbKey, pk: DbKey)
    requires ColumnsExist(cols, columns)
    ensures Dropped(cols, columns, stored, buf, start, end, lo, hi, pk) <==>
            Missed(cols, columns, stored, buf, start, end, lo, hi, pk) || Lost(cols, columns, stored, buf, start, end, lo, hi, pk)
  {
    hide Missed, Lost;
  }

  lemma LostIff(cols: Columns, columns: seq<nat>, stored: Table, buf: Changes, start: DbKey, end: DbKey, lo: DbKey,
      hi: DbKey, pk: DbKey, row: Row)
    requires ColumnsExist(cols, columns) && pk in buf && Lookup(Patch(stored, buf), pk) == Some(row)
    requires KeyInRange(columns, start, end, row)
    ensures Lost(cols, columns, stored, buf, start, end, lo, hi, pk) <==>
            start.KComposite? && !StoredHit(cols, columns, stored, start, end, lo, hi, pk)
  {
    hide KeyInRange, StoredHit, Patch;
  }

  lemma NotMissed(cols: Columns, columns: seq<nat>, stored: Table, buf: Changes, start: DbKey, end: DbKey, lo: DbKey,
      hi: DbKey, pk: DbKey)
    requires ColumnsExist(cols, columns) && pk in buf
    ensures !Missed(cols, columns, stored, buf, start, end, lo, hi, pk)
  {
  }

  lemma NotLost(cols: Columns, columns: seq<nat>, stored: Table, buf: Changes, start: DbKey, end: DbKey, lo: DbKey,
      hi: DbKey, pk: DbKey)
    requires ColumnsExist(cols, columns) && (pk !in buf || !start.KComposite?)
    ensures !Lost(cols, columns, stored, buf, start, end, lo, hi, pk)
  {
  }

  lemma MissedFacts(cols: Columns, columns: seq<nat>, stored: Table, buf: Changes, start: DbKey, end: DbKey, lo: DbKey,
      hi: DbKey, pk: DbKey)
    requires ColumnsExist(cols, columns) && Missed(cols, columns, stored, buf, start, end, lo, hi, pk)
    ensures pk in stored && pk !in buf && KeyInRange(columns, start, end, stored[pk])
  {
    hide KeyInRange, KeyPadded, Padded, Mins, Maxs;
  }

  lemma LostFacts(cols: Columns, columns: seq<nat>, stored: Table, buf: Changes, start: DbKey, end: DbKey, lo: DbKey,
      hi: DbKey, pk: DbKey)
    requires ColumnsExist(cols, columns) && Lost(cols, columns, stored, buf, start, end, lo, hi, pk)
    ensures pk in buf && buf[pk].Some? && KeyInRange(columns, start, end, buf[pk].value)
  {
    hide KeyInRange, StoredHit;
  }

  lemma StoredHitIff(cols: Columns, columns: seq<nat>, stored: Table, start: DbKey, end: DbKey, lo: DbKey, hi: DbKey,
      pk: DbKey)
    requires ColumnsExist(cols, columns)
    ensures pk in ScanHits(cols, columns, stored, start, end, lo, hi) <==> StoredHit(cols, columns, stored, start, end, lo, hi, pk)
  {
    hide Image, Hits, KeyParts, KeyPadded, Padded;
    HitIff(BTree(columns), stored, Padded(start, Mins(cols, columns), lo), Padded(end, Maxs(cols, columns), hi), pk);
  }

  /** With the range predicate re-applied, the scan equals filtering the whole overlaid table exactly
      when no unbuffered stored row in range falls outside the padded bounds and, under composite
      bounds, every buffered row in range has a stored version that the padded range hits. */
  lemma FilterMakesExact(cols: Columns, columns: seq<nat>, stored: Table, buf: Changes, start: DbKey, end: DbKey,
      lo: DbKey, hi: DbKey)
    requires ColumnsExist(cols, columns) && columns != []
    ensures (forall pk, row :: KeyInRange(columns, start, end, row) ==>
              (Returned(cols, columns, stored, buf, start, end, lo, hi, pk, row) <==> Lookup(Patch(stored, buf), pk) == Some(row)))
            <==> !exists pk :: Dropped(cols, columns, stored, buf, start, end, lo, hi, pk)
  {
    hide KeyInRange, Returned, Dropped, Patch, ColumnsExist;
    if pk :| Dropped(cols, columns, stored, buf, start, end, lo, hi, pk) {
      var row := DroppedRow(cols, columns, stored, buf, start, end, lo, hi, pk);
      ReturnedRow(cols, columns, stored, buf, start, end, lo, hi, pk, row);
    } else {
      forall pk, row | KeyInRange(columns, start, end, row)
        ensures Returned(cols, columns, stored, buf, start, end, lo, hi, pk, row) <==> Lookup(Patch(stored, buf), pk) == Some(row)
      {
        ReturnedRow(cols, columns, stored, buf, start, end, lo, hi, pk, row);
      }
    }
  }

  lemma ReturnedRow(cols: Columns, columns: seq<nat>, stored: Table, buf: Changes, start: DbKey, end: DbKey,
      lo: DbKey, hi: DbKey,
      pk: DbKey, row: Row)
    requires ColumnsExist(cols, columns) && columns != []
    requires KeyInRange(columns, start, end, row)
    ensures Returned(cols, columns, stored, buf, start, end, lo, hi, pk, row) <==>
            Lookup(Patch(stored, buf), pk) == Some(row) && !Dropped(cols, columns, stored, buf, start, end, lo, hi, pk)
  {
    hide KeyInRange, Dropped, ScanHits;
    if Lookup(Patch(stored, buf), pk) == Some(row) {
      if pk in buf {
        ReturnedBuffered(cols, columns, stored, buf, start, end, lo, hi, pk, row);
      } else {
        ReturnedUnbuffered(cols, columns, stored, buf, start, end, lo, hi, pk, row);
      }
    }
  }

  lemma DroppedRow(cols: Columns, columns: seq<nat>, stored: Table, buf: Changes, start: DbKey, end: DbKey, lo: DbKey,
      hi: DbKey, pk: DbKey)
    returns (row: Row)
    requires ColumnsExist(cols, columns) && Dropped(cols, columns, stored, buf, start, end, lo, hi, pk)
    ensures KeyInRange(columns, start, end, row) && Lookup(Patch(stored, buf), pk) == Some(row)
  {
    hide KeyInRange, Missed, Lost, Patch;
    if pk in buf {
      NotMissed(cols, columns, stored, buf, start, end, lo, hi, pk);
      LostFacts(cols, columns, stored, buf, start, end, lo, hi, pk);
      row := buf[pk].value;
    } else {
      NotLost(cols, columns, stored, buf, start, end, lo, hi, pk);
      MissedFacts(cols, columns, stored, buf, start, end, lo, hi, pk);
      row := stored[pk];
    }
  }

  /** For bounds that are not composite the buffer loses nothing: only rows outside the padded bounds are missed. */
  lemma LeadingBoundsExact(cols: Columns, columns: seq<nat>, stored: Table, buf: Changes, start: DbKey, end: DbKey,
      lo: DbKey, hi: DbKey)
    requires ColumnsExist(cols, columns) && columns != [] && !start.KComposite?
    ensures (forall pk, row :: KeyInRange(columns, start, end, row) ==>
              (Returned(cols, columns, stored, buf, start, end, lo, hi, pk, row) <==> Lookup(Patch(stored, buf), pk) == Some(row)))
            <==> !exists pk :: Missed(cols, columns, stored, buf, start, end, lo, hi, pk)
  {
    hide KeyInRange, Returned, Missed, Lost, Dropped, Patch, ColumnsExist;
    FilterMakesExact(cols, columns, stored, buf, start, end, lo, hi);
    forall pk ensures Dropped(cols, columns, stored, buf, start, end, lo, hi, pk) <==> Missed(cols, columns, stored, buf, start, end, lo, hi, pk) {
      DroppedIff(cols, columns, stored, buf, start, end, lo, hi, pk);
      NotLost(cols, columns, stored, buf, start, end, lo, hi, pk);
    }
  }

  /** Rows whose trailing index columns and primary keys lie within their type bounds are never missed. */
  lemma NothingMissed(cols: Columns, columns: seq<nat>, stored: Table, buf: Changes, start: DbKey, end: DbKey,
      lo: DbKey, hi: DbKey, pk: DbKey)
    requires ColumnsExist(cols, columns)
    requires pk in stored && InRange(pk, lo, hi)
    requires forall i :: |Parts(start)| <= i < |columns| && i < |KeyParts(columns, stored[pk])| ==>
      WithinType(KeyParts(columns, stored[pk])[i], cols[columns[i]].dataType)
    ensures !Missed(cols, columns, stored, buf, start, end, lo, hi, pk)
  {
    hide *;
    if KeyInRange(columns, start, end, stored[pk]) {
      FullKey(columns, start, end, stored[pk]);
      PaddedCovers(cols, columns, start, end, lo, hi, pk, stored[pk]);
    }
    MissedIff(cols, columns, stored, buf, start, end, lo, hi, pk);
  }

  lemma FullKey(columns: seq<nat>, start: DbKey, end: DbKey, row: Row)
    requires KeyInRange(columns, start, end, row)
    ensures |KeyParts(columns, row)| == |columns|
  {
  }

  lemma MissedIff(cols: Columns, columns: seq<nat>, stored: Table, buf: Changes, start: DbKey, end: DbKey, lo: DbKey,
      hi: DbKey, pk: DbKey)
    requires ColumnsExist(cols, columns) && pk in stored
    ensures Missed(cols, columns, stored, buf, start, end, lo, hi, pk) ==>
      KeyInRange(columns, start, end, stored[pk]) &&
      !KeyPadded(columns, Padded(start, Mins(cols, columns), lo), Padded(end, Maxs(cols, columns), hi), pk, stored[pk])
  {
    hide KeyInRange, KeyPadded, Padded, Mins, Maxs;
  }

  function TextColumn(name: string): Column
  {
    Column(0, name, TString, false, true, "", None)
  }

  /** The string bound is a sentinel, not a maximum: a row whose second index column continues after
      U+10FFFF is in range and missed. */
  lemma SentinelMisses()
    ensures var cols := [TextColumn("a"), TextColumn("b")];
            var stored := map[KInt(1) := [Str("x"), Str([LAST_CHAR, 'a'])]];
            Missed(cols, [0, 1], stored, map[], KStr("x"), KStr("x"), KInt(I64_MIN), KInt(I64_MAX), KInt(1))
  {
    var cols := [TextColumn("a"), TextColumn("b")];
    var row := [Str("x"), Str([LAST_CHAR, 'a'])];
    SentinelKey(row);
    SingleLeq(KStr("x"), KStr("x"));
    LeqRefl(KStr("x"));
    var to := Padded(KStr("x"), Maxs(cols, [0, 1]), KInt(I64_MAX));
    assert to == KComposite([KStr("x"), KStr([LAST_CHAR]), KInt(I64_MAX)]);
    SentinelAbove();
    var ks := KeyParts([0, 1], row);
    assert ks + [KInt(1)] == [KStr("x"), KStr([LAST_CHAR, 'a']), KInt(1)] && ks[..1] == [KStr("x")];
    hide Leq, SeqLeq, KeyParts, Padded;
  }

  lemma SentinelKey(row: Row)
    requires row == [Str("x"), Str([LAST_CHAR, 'a'])]
    ensures KeyParts([0, 1], row) == [KStr("x"), KStr([LAST_CHAR, 'a'])]
  {
    assert [0, 1][..1] == [0] && [0][..0] == [];
    assert KeyParts([0], row) == [KStr("x")];
  }

  lemma SentinelAbove()
    ensures !Leq(KComposite([KStr("x"), KStr([LAST_CHAR, 'a']), KInt(1)]), KComposite([KStr("x"), KStr([LAST_CHAR]), KInt(I64_MAX)]))
  {
    var key, to := [KStr("x"), KStr([LAST_CHAR, 'a']), KInt(1)], [KStr("x"), KStr([LAST_CHAR]), KInt(I64_MAX)];
    assert [LAST_CHAR, 'a'][1..] == ['a'] && [LAST_CHAR][1..] == [];
    assert !StrLeq([LAST_CHAR, 'a'], [LAST_CHAR]);
    assert key[1..] == [KStr([LAST_CHAR, 'a']), KInt(1)] && to[1..] == [KStr([LAST_CHAR]), KInt(I64_MAX)];
    assert !SeqLeq(key[1..], to[1..]);
    CompositeLeq(key, to);
  }

  function IntColumn(name: string): Column
  {
    Column(0, name, TInt, false, true, "", None)
  }

  /** A row just inserted, looked up by both columns of an index, is not found: the table is empty,
      the buffered row is equal to both bounds, and nothing is returned. */
  lemma InsertedRowLost()
    ensures var cols, columns := [IntColumn("a"), IntColumn("b")], [0, 1];
            var row, bound := [Int(1), Int(2)], KComposite([KInt(1), KInt(2)]);
            var buf: Changes := map[KInt(7) := Some(row)];
            && KeyInRange(columns, bound, bound, row) && Lookup(Patch(map[], buf), KInt(7)) == Some(row)
            && !Returned(cols, columns, map[], buf, bound, bound, KInt(I64_MIN), KInt(I64_MAX), KInt(7), row)
  {
    var cols, columns := [IntColumn("a"), IntColumn("b")], [0, 1];
    var row, bound := [Int(1), Int(2)], KComposite([KInt(1), KInt(2)]);
    var buf: Changes := map[KInt(7) := Some(row)];
    assert columns[..1] == [0] && [0][..0] == [];
    assert KeyParts([0], row) == [KInt(1)];
    var ks := KeyParts(columns, row);
    assert ks == [KInt(1), KInt(2)] && ks[..2] == ks;
    LeqRefl(bound);
    assert KeyInRange(columns, bound, bound, row);
    hide KeyInRange, Returned, KeyParts, Leq;
    ReturnedRow(cols, columns, map[], buf, bound, bound, KInt(I64_MIN), KInt(I64_MAX), KInt(7), row);
  }
}
