/** Scanning a table whose rows are spread over locality groups: a merge of group cursors by key. */
module GroupScan {
  import opened Values
  import opened Schemas
  import opened Indexes
  import opened Stores
  import opened Ordered
  import opened Cursors
  import opened Evolution

  type Cursor = seq<(DbKey, Row)>

  ghost predicate CursorsOk(gs: seq<string>, rest: seq<Cursor>)
  {
    |rest| == |gs| && forall i :: 0 <= i < |rest| ==> Ascending(KeysOf(rest[i]))
  }

  function Slot(gs: seq<string>, g: string): (i: nat)
    requires g in gs
    ensures i < |gs| && gs[i] == g
  {
    if gs[0] == g then 0 else 1 + Slot(gs[1..], g)
  }

  /** Sub-rows by slot, as sub-rows by group name. */
  function ByGroup(gs: seq<string>, slots: seq<Option<Row>>): map<string, Option<Row>>
    requires |slots| == |gs|
  {
    map g | g in gs :: slots[Slot(gs, g)]
  }

  /** What each cursor has under a key. */
  function SlotsAt(rest: seq<Cursor>, k: DbKey): (slots: seq<Option<Row>>)
    ensures |slots| == |rest|
  {
    seq(|rest|, i requires 0 <= i < |rest| => Lookup(AsMap(rest[i]), k))
  }

  function KeysLeft(rest: seq<Cursor>): set<DbKey>
  {
    set i, k | 0 <= i < |rest| && k in AsMap(rest[i]) :: k
  }

  /** The rows the cursors still hold, merged key by key. */
  ghost function Pending(cols: Columns, gs: seq<string>, rest: seq<Cursor>): Table
    requires |rest| == |gs|
  {
    map k | k in KeysLeft(rest) :: Merge(cols, ByGroup(gs, SlotsAt(rest, k)))
  }

  // ---------- One step of the merge ----------

  /** The smallest key at the head of a cursor. */
  method MinHead(rest: seq<Cursor>) returns (k: Option<DbKey>)
    ensures k.None? <==> forall i :: 0 <= i < |rest| ==> rest[i] == []
    ensures k.Some? ==> (exists i :: 0 <= i < |rest| && rest[i] != [] && rest[i][0].0 == k.value)
    ensures k.Some? ==> forall i :: 0 <= i < |rest| && rest[i] != [] ==> Leq(k.value, rest[i][0].0)
  {
    k := None;
    for n := 0 to |rest|
      invariant k.None? <==> forall i :: 0 <= i < n ==> rest[i] == []
      invariant k.Some? ==> exists i :: 0 <= i < n && rest[i] != [] && rest[i][0].0 == k.value
      invariant k.Some? ==> forall i :: 0 <= i < n && rest[i] != [] ==> Leq(k.value, rest[i][0].0)
    {
      if rest[n] != [] {
        var head := rest[n][0].0;
        LeqRefl(head);
        if k.None? {
          k := Some(head);
        } else {
          LeqTotal(head, k.value);
          if Less(head, k.value) {
            forall i | 0 <= i < n && rest[i] != [] ensures Leq(head, rest[i][0].0) {
              LeqTrans(head, k.value, rest[i][0].0);
            }
            k := Some(head);
          }
        }
      }
    }
  }

  function Popped(c: Cursor, k: DbKey): Cursor
  {
    if c != [] && c[0].0 == k then c[1..] else c
  }

  /** Takes the sub-row of every cursor that stands at k, and moves those cursors on. */
  method TakeHeads(gs: seq<string>, rest: seq<Cursor>, k: DbKey) returns (slots: seq<Option<Row>>, rest': seq<Cursor>)
    requires CursorsOk(gs, rest)
    requires forall i :: 0 <= i < |rest| && rest[i] != [] ==> Leq(k, rest[i][0].0)
    ensures slots == SlotsAt(rest, k)
    ensures |rest'| == |rest| && forall i :: 0 <= i < |rest| ==> rest'[i] == Popped(rest[i], k)
  {
    slots, rest' := [], rest;
    for n := 0 to |rest|
      invariant |slots| == n && forall i :: 0 <= i < n ==> slots[i] == Lookup(AsMap(rest[i]), k)
      invariant |rest'| == |rest| && forall i :: 0 <= i < n ==> rest'[i] == Popped(rest[i], k)
      invariant forall i :: n <= i < |rest| ==> rest'[i] == rest[i]
    {
      AtHead(rest[n], k);
      if rest[n] != [] && rest[n][0].0 == k {
        slots := slots + [Some(rest[n][0].1)];
        rest' := rest'[n := rest[n][1..]];
      } else {
        slots := slots + [None];
      }
    }
  }

  lemma AtHead(c: Cursor, k: DbKey)
    requires Ascending(KeysOf(c)) && (c != [] ==> Leq(k, c[0].0))
    ensures Lookup(AsMap(c), k) == if c != [] && c[0].0 == k then Some(c[0].1) else None
    ensures AsMap(Popped(c, k)) == AsMap(c) - {k} && Ascending(KeysOf(Popped(c, k)))
    ensures forall x :: x in AsMap(c) ==> Leq(k, x)
  {
    if c != [] {
      AsMapHead(c);
      forall x | x in AsMap(c) ensures Leq(k, x) {
        LeqTrans(k, c[0].0, x);
      }
      LeqTotal(k, c[0].0);
    }
  }

  /** A step takes the least pending row and leaves the others. */
  lemma StepTakes(cols: Columns, gs: seq<string>, rest: seq<Cursor>, rest': seq<Cursor>, k: DbKey)
    requires CursorsOk(gs, rest) && |rest'| == |rest|
    requires exists i :: 0 <= i < |rest| && rest[i] != [] && rest[i][0].0 == k
    requires forall i :: 0 <= i < |rest| && rest[i] != [] ==> Leq(k, rest[i][0].0)
    requires forall i :: 0 <= i < |rest| ==> rest'[i] == Popped(rest[i], k)
    ensures CursorsOk(gs, rest')
    ensures IsLeast(k, Pending(cols, gs, rest).Keys) && Pending(cols, gs, rest') == Pending(cols, gs, rest) - {k}
  {
    hide Merge, AsMap, ByGroup, KeysOf, Ascending, Popped;
    forall i | 0 <= i < |rest|
      ensures AsMap(rest'[i]) == AsMap(rest[i]) - {k} && Ascending(KeysOf(rest'[i]))
      ensures forall x :: x in AsMap(rest[i]) ==> Leq(k, x)
    {
      AtHead(rest[i], k);
    }
    var at :| 0 <= at < |rest| && rest[at] != [] && rest[at][0].0 == k;
    AtHead(rest[at], k);
    assert k in AsMap(rest[at]);
    KeysLeftTake(rest, rest', k);
    assert forall x :: x != k ==> SlotsAt(rest', x) == SlotsAt(rest, x);
  }

  lemma KeysLeftTake(rest: seq<Cursor>, rest': seq<Cursor>, k: DbKey)
    requires |rest'| == |rest| && forall i :: 0 <= i < |rest| ==> AsMap(rest'[i]) == AsMap(rest[i]) - {k}
    ensures KeysLeft(rest') == KeysLeft(rest) - {k}
  {
    hide AsMap;
    forall x | x in KeysLeft(rest) - {k} ensures x in KeysLeft(rest') {
      var i :| 0 <= i < |rest| && x in AsMap(rest[i]);
      assert x in AsMap(rest'[i]);
    }
  }

  lemma NothingPending(cols: Columns, gs: seq<string>, rest: seq<Cursor>)
    requires |rest| == |gs| && forall i :: 0 <= i < |rest| ==> rest[i] == []
    ensures Listing(Pending(cols, gs, rest)) == []
  {
    assert Pending(cols, gs, rest).Keys == {};
  }

  // ---------- The scan that collects ----------

  predicate AllRows(e: Engine)
  {
    forall k :: k in e ==> e[k].SubRow?
  }

  function RowsOf(e: Engine): Table
    requires AllRows(e)
  {
    map k | k in e :: e[k].row
  }

  /** Decodes the entries of one group in range. */
  method ScanGroup(e: Engine, lo: DbKey, hi: DbKey) returns (c: Cursor)
    requires AllRows(e)
    ensures c == Listing(RowsOf(Within(e, lo, hi))) && Ascending(KeysOf(c))
  {
    WithinRows(e, lo, hi);
    hide *;
    var entries := FilteredScan(e, lo, hi);
    EntriesAreRows(Within(e, lo, hi), entries);
    c := [];
    for n := 0 to |entries|
      invariant |c| == n && forall i :: 0 <= i < n ==> c[i] == (entries[i].0, entries[i].1.row)
    {
      c := c + [(entries[n].0, entries[n].1.row)];
    }
    DecodedListing(Within(e, lo, hi), entries, c);
  }

  lemma WithinRows(e: Engine, lo: DbKey, hi: DbKey)
    requires AllRows(e)
    ensures AllRows(Within(e, lo, hi))
  {
    hide InRange;
  }

  lemma EntriesAreRows(m: Engine, entries: seq<(DbKey, Stored)>)
    requires AllRows(m) && entries == Listing(m)
    ensures forall i :: 0 <= i < |entries| ==> entries[i].1.SubRow?
  {
    hide Listing, Ascending;
    ListingFacts(m);
    forall i | 0 <= i < |entries| ensures entries[i].1.SubRow? {
      assert (entries[i].0, entries[i].1) in entries;
    }
  }

  lemma DecodedListing(m: Engine, entries: seq<(DbKey, Stored)>, c: Cursor)
    requires AllRows(m) && entries == Listing(m) && |c| == |entries|
    requires forall i :: 0 <= i < |entries| ==> entries[i].1.SubRow? && c[i] == (entries[i].0, entries[i].1.row)
    ensures c == Listing(RowsOf(m)) && Ascending(KeysOf(c))
  {
    hide Listing, Ascending;
    ListingFacts(m);
    assert KeysOf(c) == KeysOf(entries);
    forall i | 0 <= i < |c| ensures c[i].0 in RowsOf(m) && RowsOf(m)[c[i].0] == c[i].1 {
      assert (entries[i].0, entries[i].1) in entries;
    }
    forall k | k in RowsOf(m) ensures k in KeysOf(c) {
      assert (k, m[k]) in entries;
      var i :| 0 <= i < |entries| && entries[i] == (k, m[k]);
      assert KeysOf(c)[i] == k;
    }
    ListingUnique(c, RowsOf(m));
  }

  ghost predicate EnginesOk(gs: seq<string>, engines: map<string, Engine>)
  {
    forall i :: 0 <= i < |gs| ==> gs[i] in engines && AllRows(engines[gs[i]])
  }

  ghost function Opened(gs: seq<string>, engines: map<string, Engine>, lo: DbKey, hi: DbKey): (rest: seq<Cursor>)
    requires EnginesOk(gs, engines)
    ensures |rest| == |gs|
  {
    seq(|gs|, i requires 0 <= i < |gs| => Listing(RowsOf(Within(engines[gs[i]], lo, hi))))
  }

  method OpenGroups(gs: seq<string>, engines: map<string, Engine>, lo: DbKey, hi: DbKey) returns (rest: seq<Cursor>)
    requires EnginesOk(gs, engines)
    ensures rest == Opened(gs, engines, lo, hi) && CursorsOk(gs, rest)
  {
    hide Listing, RowsOf, Within, Ascending, KeysOf;
    rest := [];
    for n := 0 to |gs|
      invariant |rest| == n && forall i :: 0 <= i < n ==> rest[i] == Opened(gs, engines, lo, hi)[i]
      invariant forall i :: 0 <= i < n ==> Ascending(KeysOf(rest[i]))
    {
      var c := ScanGroup(engines[gs[n]], lo, hi);
      rest := rest + [c];
    }
  }

  /** Table::filtered_scan: the merged rows of all groups, in key order. */
  method TableScan(cols: Columns, gs: seq<string>, engines: map<string, Engine>, lo: DbKey, hi: DbKey)
    returns (rows: seq<(DbKey, Row)>)
    requires EnginesOk(gs, engines)
    ensures rows == Listing(Pending(cols, gs, Opened(gs, engines, lo, hi)))
  {
    hide Pending, Listing, Merge, ByGroup, Opened;
    var rest := OpenGroups(gs, engines, lo, hi);
    ghost var all := Pending(cols, gs, rest);
    rows := [];
    var k := MinHead(rest);
    while k.Some?
      invariant CursorsOk(gs, rest) && Listing(all) == rows + Listing(Pending(cols, gs, rest))
      invariant k.None? <==> forall i :: 0 <= i < |rest| ==> rest[i] == []
      invariant k.Some? ==> exists i :: 0 <= i < |rest| && rest[i] != [] && rest[i][0].0 == k.value
      invariant k.Some? ==> forall i :: 0 <= i < |rest| && rest[i] != [] ==> Leq(k.value, rest[i][0].0)
      decreases Pending(cols, gs, rest).Keys
    {
      ghost var before := Pending(cols, gs, rest);
      var slots, rest' := TakeHeads(gs, rest, k.value);
      StepTakes(cols, gs, rest, rest', k.value);
      var row := MergeRows(cols, ByGroup(gs, slots));
      PendingAt(cols, gs, rest, k.value);
      ListingHead(before, k.value);
      rows := rows + [(k.value, row)];
      rest := rest';
      k := MinHead(rest);
    }
    NothingPending(cols, gs, rest);
  }

  lemma PendingAt(cols: Columns, gs: seq<string>, rest: seq<Cursor>, k: DbKey)
    requires |rest| == |gs| && k in Pending(cols, gs, rest)
    ensures Pending(cols, gs, rest)[k] == Merge(cols, ByGroup(gs, SlotsAt(rest, k)))
  {
  }

  // ---------- The scan that streams ----------

  /** Copies each column from its slot's sub-row at its place in the group. */
  method MergeSlots(cols: Columns, gs: seq<string>, slots: seq<Option<Row>>) returns (full: Row)
    requires |slots| == |gs|
    ensures full == Merge(cols, ByGroup(gs, slots))
  {
    hide RelativeIndex, Slot;
    full := DefaultRow(cols);
    for i := 0 to |cols|
      invariant |full| == |cols|
      invariant forall j :: 0 <= j < i ==> full[j] == MergedValue(cols, ByGroup(gs, slots), j)
      invariant forall j :: i <= j < |cols| ==> full[j] == DefaultOf(cols[j])
    {
      if cols[i].group in gs {
        var slot := Slot(gs, cols[i].group);
        if slots[slot].Some? && RelativeIndex(cols, i) < |slots[slot].value| {
          full := full[i := slots[slot].value[RelativeIndex(cols, i)]];
        }
      }
    }
  }

  lemma {:induction false} AllInGroup(cols: Columns, g: string)
    requires forall c :: c in cols ==> c.group == g
    ensures GroupColumns(cols, g) == cols
  {
    if cols != [] {
      AllInGroup(cols[..|cols| - 1], g);
    }
  }

  /** In a table with one group the stored sub-row is the row, up to columns it predates. */
  lemma SingleGroupMerge(cols: Columns, g: string, sub: Row)
    requires DistinctNames(cols) && DistinctIds(CurrentLayout(cols)) && Groups(cols) == {g}
    ensures Merge(cols, ByGroup([g], [Some(sub)])) == Reconciled(cols, sub, CurrentLayout(cols))
  {
    var parts := ByGroup([g], [Some(sub)]);
    assert parts[g] == Some(sub);
    forall i | 0 <= i < |cols|
      ensures MergedValue(cols, parts, i) == OrElse(ValueOf(CurrentLayout(cols), sub, cols[i].id), cols[i].default)
    {
      InPlace(cols, g, i);
    }
  }

  /** In a table with one group every column is at its own place, in the sub-row and in the layout. */
  lemma InPlace(cols: Columns, g: string, i: nat)
    requires DistinctNames(cols) && DistinctIds(CurrentLayout(cols)) && Groups(cols) == {g} && i < |cols|
    ensures cols[i].group == g && RelativeIndex(cols, i) == i && PosOf(CurrentLayout(cols), cols[i].id) == Some(i)
  {
    hide RelativeIndex;
    forall c | c in cols ensures c.group == g {
      assert c.group in Groups(cols);
    }
    assert cols[i] in cols;
    AllInGroup(cols[..i], g);
    RelativeIndexCounts(cols, i);
    assert CurrentLayout(cols)[i].id == cols[i].id;
  }

  ghost predicate TableOk(cols: Columns, gs: seq<string>)
  {
    DistinctNames(cols) && DistinctIds(CurrentLayout(cols)) && (set g | g in gs) == Groups(cols)
  }

  class TableIterator {
    const cols: Columns
    const gs: seq<string>
    const singleGroup: bool
    var rest: seq<Cursor>
    var peeked: Option<(DbKey, Row)>

    constructor (cols: Columns, gs: seq<string>, rest: seq<Cursor>)
      requires TableOk(cols, gs) && CursorsOk(gs, rest)
      ensures Valid() && Left() == Listing(Pending(cols, gs, rest)) && this.cols == cols && this.gs == gs
    {
      this.cols, this.gs, this.rest := cols, gs, rest;
      singleGroup := |Groups(cols)| == 1 && |gs| == 1;
      peeked := None;
      new;
      if |gs| == 1 { OneGroup(cols, gs); }
      Advance();
    }

    ghost predicate Shape()
      reads this
    {
      TableOk(cols, gs) && CursorsOk(gs, rest) && (singleGroup ==> |gs| == 1 && Groups(cols) == {gs[0]})
    }

    /** A row is ready whenever one is left. */
    ghost predicate Valid()
      reads this
    {
      Shape() && (peeked.None? ==> Listing(Pending(cols, gs, rest)) == [])
    }

    /** The rows still to come, in order. */
    ghost function Left(): seq<(DbKey, Row)>
      reads this
      requires Shape()
    {
      (if peeked.Some? then [peeked.value] else []) + Listing(Pending(cols, gs, rest))
    }

    method Advance()
      requires Shape()
      modifies this
      ensures Valid() && Left() == old(Listing(Pending(cols, gs, rest)))
    {
      hide Merge, ByGroup, Pending, Listing, TableOk, Ascending, KeysOf;
      var k := MinHead(rest);
      if k.None? {
        peeked := None;
        NothingPending(cols, gs, rest);
        return;
      }
      ghost var before := Pending(cols, gs, rest);
      var slots, rest' := TakeHeads(gs, rest, k.value);
      StepTakes(cols, gs, rest, rest', k.value);
      PendingAt(cols, gs, rest, k.value);
      ListingHead(before, k.value);
      var row;
      if singleGroup {
        assert slots[0].Some?;
        row := SingleRow(cols, gs, slots);
      } else {
        row := MergeSlots(cols, gs, slots);
      }
      peeked := Some((k.value, row));
      rest := rest';
    }

    method TakeNext() returns (r: Option<(DbKey, Row)>)
      requires Valid()
      modifies this
      ensures Valid()
      ensures if old(Left()) == [] then r.None? && Left() == [] else r == Some(old(Left())[0]) && Left() == old(Left())[1..]
    {
      r := peeked;
      if peeked.Some? {
        Advance();
      }
    }
  }

  lemma OneGroup(cols: Columns, gs: seq<string>)
    requires (set g | g in gs) == Groups(cols) && |gs| == 1
    ensures Groups(cols) == {gs[0]}
  {
  }

  /** The fast path: no merge, only padding to the live columns. */
  method SingleRow(cols: Columns, gs: seq<string>, slots: seq<Option<Row>>) returns (row: Row)
    requires TableOk(cols, gs) && |gs| == 1 == |slots| && Groups(cols) == {gs[0]} && slots[0].Some?
    ensures row == Merge(cols, ByGroup(gs, slots))
  {
    row := ReconcileRow(cols, slots[0].value);
    SingleGroupMerge(cols, gs[0], slots[0].value);
    assert gs == [gs[0]] && slots == [Some(slots[0].value)];
  }

  /** Streaming a table gives exactly what collecting it gives. */
  method StreamTable(cols: Columns, gs: seq<string>, engines: map<string, Engine>, lo: DbKey, hi: DbKey)
    returns (rows: seq<(DbKey, Row)>)
    requires TableOk(cols, gs) && EnginesOk(gs, engines)
    ensures rows == Listing(Pending(cols, gs, Opened(gs, engines, lo, hi)))
  {
    hide Pending, Listing, Opened, TableOk, CursorsOk, EnginesOk;
    var rest := OpenGroups(gs, engines, lo, hi);
    var it := new TableIterator(cols, gs, rest);
    ghost var all := it.Left();
    rows := [];
    while it.peeked.Some?
      invariant it.Valid() && it.cols == cols && it.gs == gs && all == rows + it.Left()
      decreases |it.Left()|
    {
      var r := it.TakeNext();
      rows := rows + [r.value];
    }
  }

  // ---------- Groups are invisible ----------

  ghost predicate HoldsTable(cols: Columns, gs: seq<string>, engines: map<string, Engine>, t: Table)
    requires forall k :: k in t ==> |t[k]| == |cols|
  {
    forall i :: 0 <= i < |gs| ==> gs[i] in engines && engines[gs[i]] == GroupImage(cols, gs[i], t)
  }

  /** The sub-rows of one group for the rows in range. */
  function SubRows(cols: Columns, t: Table, g: string, lo: DbKey, hi: DbKey): (r: Table)
    requires forall k :: k in t ==> |t[k]| == |cols|
    ensures r.Keys == Within(t, lo, hi).Keys
  {
    map k | k in t && InRange(k, lo, hi) :: Split(cols, t[k], g)
  }

  ghost predicate HoldsSubRows(cols: Columns, gs: seq<string>, rest: seq<Cursor>, t: Table, lo: DbKey, hi: DbKey)
    requires forall k :: k in t ==> |t[k]| == |cols|
  {
    |rest| == |gs| && forall i :: 0 <= i < |gs| ==> AsMap(rest[i]) == SubRows(cols, t, gs[i], lo, hi)
  }

  lemma OpenedHolds(cols: Columns, gs: seq<string>, engines: map<string, Engine>, t: Table, lo: DbKey, hi: DbKey)
    requires forall k :: k in t ==> |t[k]| == |cols|
    requires EnginesOk(gs, engines) && HoldsTable(cols, gs, engines, t)
    ensures HoldsSubRows(cols, gs, Opened(gs, engines, lo, hi), t, lo, hi)
  {
    hide Listing, AsMap, SubRows, RowsOf, Within, GroupImage, AllRows;
    forall i | 0 <= i < |gs| ensures AsMap(Opened(gs, engines, lo, hi)[i]) == SubRows(cols, t, gs[i], lo, hi) {
      OpenedOne(cols, gs[i], t, lo, hi);
    }
  }

  lemma OpenedOne(cols: Columns, g: string, t: Table, lo: DbKey, hi: DbKey)
    requires forall k :: k in t ==> |t[k]| == |cols|
    ensures AllRows(Within(GroupImage(cols, g, t), lo, hi))
    ensures AsMap(Listing(RowsOf(Within(GroupImage(cols, g, t), lo, hi)))) == SubRows(cols, t, g, lo, hi)
  {
    SubRowsAre(cols, g, t, lo, hi);
    hide *;
    var part := SubRows(cols, t, g, lo, hi);
    ListingAsMap(part, Listing(part));
  }

  lemma SubRowsAre(cols: Columns, g: string, t: Table, lo: DbKey, hi: DbKey)
    requires forall k :: k in t ==> |t[k]| == |cols|
    ensures AllRows(Within(GroupImage(cols, g, t), lo, hi))
    ensures RowsOf(Within(GroupImage(cols, g, t), lo, hi)) == SubRows(cols, t, g, lo, hi)
  {
    GroupRows(cols, g, t);
    WithinRows(GroupImage(cols, g, t), lo, hi);
    hide *;
    var a, b := RowsOf(Within(GroupImage(cols, g, t), lo, hi)), SubRows(cols, t, g, lo, hi);
    forall k ensures Lookup(a, k) == Lookup(b, k) {
      SubRowAt(cols, g, t, lo, hi, k);
    }
    MapsEqual(a, b);
  }

  lemma GroupRows(cols: Columns, g: string, t: Table)
    requires forall k :: k in t ==> |t[k]| == |cols|
    ensures AllRows(GroupImage(cols, g, t))
  {
    hide Split;
  }

  lemma SubRowAt(cols: Columns, g: string, t: Table, lo: DbKey, hi: DbKey, k: DbKey)
    requires forall k :: k in t ==> |t[k]| == |cols|
    requires AllRows(Within(GroupImage(cols, g, t), lo, hi))
    ensures Lookup(RowsOf(Within(GroupImage(cols, g, t), lo, hi)), k) == Lookup(SubRows(cols, t, g, lo, hi), k)
  {
    hide Split, InRange, AllRows;
  }

  lemma SlotsAreSplit(cols: Columns, gs: seq<string>, rest: seq<Cursor>, t: Table, lo: DbKey, hi: DbKey, k: DbKey)
    requires forall k :: k in t ==> |t[k]| == |cols|
    requires (set g | g in gs) == Groups(cols) && HoldsSubRows(cols, gs, rest, t, lo, hi) && k in Within(t, lo, hi)
    ensures ByGroup(gs, SlotsAt(rest, k)) == SplitAll(cols, t[k])
  {
    hide AsMap, Split, Groups;
    forall g | g in gs ensures ByGroup(gs, SlotsAt(rest, k))[g] == Some(Split(cols, t[k], g)) {
      var i := Slot(gs, g);
      assert SlotsAt(rest, k)[i] == Lookup(SubRows(cols, t, gs[i], lo, hi), k);
    }
    assert forall g :: g in gs <==> g in Groups(cols);
  }

  /** Scanning the groups of a table gives the table's rows in range, in key order. */
  lemma GroupsInvisible(cols: Columns, gs: seq<string>, engines: map<string, Engine>, t: Table, lo: DbKey, hi: DbKey)
    requires TableOk(cols, gs) && forall k :: k in t ==> |t[k]| == |cols|
    requires EnginesOk(gs, engines) && HoldsTable(cols, gs, engines, t)
    ensures Listing(Pending(cols, gs, Opened(gs, engines, lo, hi))) == Listing(Within(t, lo, hi))
  {
    hide Merge, Listing, Opened, ByGroup, SplitAll, SlotsAt, HoldsSubRows;
    var rest := Opened(gs, engines, lo, hi);
    OpenedHolds(cols, gs, engines, t, lo, hi);
    SameKeys(cols, gs, rest, t, lo, hi);
    forall k | k in Within(t, lo, hi) ensures Merge(cols, ByGroup(gs, SlotsAt(rest, k))) == t[k] {
      SlotsAreSplit(cols, gs, rest, t, lo, hi, k);
      MergeSplit(cols, t[k]);
    }
    assert Pending(cols, gs, rest) == Within(t, lo, hi);
  }

  lemma SameKeys(cols: Columns, gs: seq<string>, rest: seq<Cursor>, t: Table, lo: DbKey, hi: DbKey)
    requires (set g | g in gs) == Groups(cols) && forall k :: k in t ==> |t[k]| == |cols|
    requires HoldsSubRows(cols, gs, rest, t, lo, hi)
    ensures KeysLeft(rest) == Within(t, lo, hi).Keys
  {
    hide AsMap, Groups;
    GroupsNonempty(cols);
    var g :| g in Groups(cols);
    assert g in gs;
    var i :| 0 <= i < |gs| && gs[i] == g;
    assert AsMap(rest[i]).Keys == Within(t, lo, hi).Keys;
  }

  /** Every state a commit can leave has all groups of a table on the same keys, and a scan sees the table. */
  lemma EveryStateScansAsTable(cat: Catalog, ts: Tables, t: string, gs: seq<string>, lo: DbKey, hi: DbKey)
    requires CatalogOk(cat) && TablesOk(cat, ts) && t in cat
    requires TableOk(cat[t].columns, gs)
    ensures forall g :: g in gs ==> IsEngine(cat, Group(t, g)) && Contents(cat, ts, Group(t, g)).Keys == ts[t].Keys
    ensures var engines := map g | g in gs :: Contents(cat, ts, Group(t, g));
            EnginesOk(gs, engines) &&
            Listing(Pending(cat[t].columns, gs, Opened(gs, engines, lo, hi))) == Listing(Within(ts[t], lo, hi))
  {
    hide Listing, Pending, Opened, Split;
    forall g | g in gs ensures IsEngine(cat, Group(t, g)) {
      assert g in (set x | x in gs);
    }
    var engines := map g | g in gs :: Contents(cat, ts, Group(t, g));
    GroupsInvisible(cat[t].columns, gs, engines, ts[t], lo, hi);
  }
}
