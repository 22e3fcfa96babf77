/** The write path of a table: one list of row changes becomes one batch per group engine and per index engine. */
module TableWrites {
  import opened Values
  import opened Schemas
  import opened Indexes
  import opened Stores

  datatype Mutation = Put(key: DbKey, value: Stored) | Delete(key: DbKey)

  /** The net effect of a batch; later mutations win. */
  function Effect(batch: seq<Mutation>): Delta
  {
    if batch == [] then map[]
    else
      var last := batch[|batch| - 1];
      Effect(batch[..|batch| - 1])[last.key := if last.Put? then Some(last.value) else None]
  }

  lemma {:induction false} EffectAppend(a: seq<Mutation>, b: seq<Mutation>)
    ensures Effect(a + b) == Effect(a) + Effect(b)
  {
    if b == [] {
      assert a + b == a;
    } else {
      var n := |b| - 1;
      EffectAppend(a, b[..n]);
      assert (a + b)[..|a + b| - 1] == a + b[..n];
      assert (a + b)[|a + b| - 1] == b[n];
    }
  }

  lemma EffectPush(a: seq<Mutation>, m: Mutation)
    ensures Effect(a + [m]) == Effect(a)[m.key := if m.Put? then Some(m.value) else None]
  {
    assert (a + [m])[..|a|] == a;
  }

  /** The changes that a list of write entries stands for. */
  function ChangesOf(entries: seq<(DbKey, Option<Row>)>): Changes
  {
    if entries == [] then map[]
    else ChangesOf(entries[..|entries| - 1])[entries[|entries| - 1].0 := entries[|entries| - 1].1]
  }

  /** No key is written twice. */
  predicate DistinctKeys(entries: seq<(DbKey, Option<Row>)>)
  {
    entries == [] ||
    (entries[|entries| - 1].0 !in ChangesOf(entries[..|entries| - 1]) && DistinctKeys(entries[..|entries| - 1]))
  }

  // ---------- Index batches ----------

  method TokenPositions(tokens: seq<string>) returns (positions: map<string, seq<nat>>)
    ensures positions == PositionMap(tokens)
  {
    positions := map[];
    for n := 0 to |tokens|
      invariant positions.Keys == set t | t in tokens[..n]
      invariant forall t :: t in tokens[..n] ==> positions[t] == PositionsTo(tokens, t, n)
      invariant forall t :: t !in tokens[..n] ==> PositionsTo(tokens, t, n) == []
    {
      var t := tokens[n];
      positions := positions[t := (if t in positions then positions[t] else []) + [n]];
      assert tokens[..n + 1] == tokens[..n] + [t];
    }
    assert tokens[..|tokens|] == tokens;
  }

  method DeleteAll(keys: set<DbKey>) returns (batch: seq<Mutation>)
    ensures Effect(batch) == map x | x in keys :: None
  {
    batch := [];
    var todo := keys;
    while todo != {}
      invariant todo <= keys
      invariant Effect(batch) == map x | x in keys - todo :: None
      decreases todo
    {
      var x :| x in todo;
      EffectPush(batch, Delete(x));
      batch := batch + [Delete(x)];
      assert keys - (todo - {x}) == (keys - todo) + {x};
      todo := todo - {x};
    }
    assert keys - todo == keys;
  }

  method PutAll(cells: Engine) returns (batch: seq<Mutation>)
    ensures Effect(batch) == map x | x in cells :: Some(cells[x])
  {
    batch := [];
    var todo := cells.Keys;
    while todo != {}
      invariant todo <= cells.Keys
      invariant Effect(batch) == map x | x in cells.Keys - todo :: Some(cells[x])
      decreases todo
    {
      var x :| x in todo;
      EffectPush(batch, Put(x, cells[x]));
      batch := batch + [Put(x, cells[x])];
      assert cells.Keys - (todo - {x}) == (cells.Keys - todo) + {x};
      todo := todo - {x};
    }
    assert cells.Keys - todo == cells.Keys;
  }

  /** Deletes every entry of the old row. */
  method DropEntries(def: IndexDef, pk: DbKey, row: Row) returns (batch: seq<Mutation>)
    ensures Effect(batch) == map x | x in Entries(def, pk, row).Keys :: None
  {
    var keys := GetIndexKeys(def, row, pk);
    batch := DeleteAll(set x | x in keys);
  }

  /** Puts every entry of the new row. */
  method PutEntries(def: IndexDef, pk: DbKey, row: Row) returns (batch: seq<Mutation>)
    ensures Effect(batch) == map x | x in Entries(def, pk, row) :: Some(Entries(def, pk, row)[x])
  {
    match def
    case BTree(columns) =>
      batch := [];
      var ks := CollectKeys(columns, row);
      if |ks| == |columns| {
        batch := [Put(KComposite(ks + [pk]), Unit)];
        EffectPush([], batch[0]);
        assert [] + [batch[0]] == batch;
      }
    case FullText(_, _) =>
      var tokens := TokensOf(def, row);
      var positions := TokenPositions(tokens);
      batch := PutAll(TokenCells(positions, pk));
  }

  method CollectKeys(columns: seq<nat>, row: Row) returns (ks: seq<DbKey>)
    ensures ks == KeyParts(columns, row)
  {
    ks := [];
    for n := 0 to |columns|
      invariant ks == KeyParts(columns[..n], row)
    {
      assert columns[..n + 1][..n] == columns[..n];
      var k := ValueToKey(ValueAt(row, columns[n]));
      if k.Some? {
        ks := ks + [k.value];
      }
    }
    assert columns[..|columns|] == columns;
  }

  method EntryMutations(def: IndexDef, pk: DbKey, change: Option<Row>, prior: Option<Row>)
    returns (batch: seq<Mutation>)
    ensures Effect(batch) == EntryDelta(def, pk, change, prior)
  {
    batch := [];
    if prior.Some? {
      batch := DropEntries(def, pk, prior.value);
    }
    if change.Some? {
      var puts := PutEntries(def, pk, change.value);
      EffectAppend(batch, puts);
      batch := batch + puts;
    }
  }

  /** The keys an index derives from a row, as commit() declares them for validation. */
  method GetIndexKeys(def: IndexDef, row: Row, pk: DbKey) returns (keys: seq<DbKey>)
    ensures (set x | x in keys) == Entries(def, pk, row).Keys
  {
    keys := [];
    match def
    case BTree(columns) =>
      var ks := CollectKeys(columns, row);
      if |ks| == |columns| {
        keys := [KComposite(ks + [pk])];
      }
    case FullText(_, _) =>
      var tokens := TokensOf(def, row);
      var todo := set t | t in tokens;
      ghost var all := todo;
      while todo != {}
        invariant todo <= all
        invariant (set x | x in keys) == set t | t in all - todo :: TokenKey(t, pk)
        decreases todo
      {
        var t :| t in todo;
        assert (set x | x in keys + [TokenKey(t, pk)]) == (set x | x in keys) + {TokenKey(t, pk)};
        keys := keys + [TokenKey(t, pk)];
        assert all - (todo - {t}) == (all - todo) + {t};
        todo := todo - {t};
      }
  }

  /** One more change extends an index delta by that change's own entries. */
  lemma IndexDeltaPush(def: IndexDef, ch: Changes, prior: Table, pk: DbKey, change: Option<Row>)
    requires pk !in ch
    ensures IndexDelta(def, ch[pk := change], prior) ==
            IndexDelta(def, ch, prior) + EntryDelta(def, pk, change, Lookup(prior, pk))
  {
    var a := IndexDelta(def, ch[pk := change], prior);
    var b := IndexDelta(def, ch, prior) + EntryDelta(def, pk, change, Lookup(prior, pk));
    forall x ensures Lookup(a, x) == Lookup(b, x) {
      IndexDeltaPushAt(def, ch, prior, pk, change, x);
    }
    hide *;
    MapsEqual(a, b);
  }

  lemma EntryDeltaOther(def: IndexDef, pk: DbKey, change: Option<Row>, prior: Option<Row>, x: DbKey)
    requires PkOf(x) != pk
    ensures x !in EntryDelta(def, pk, change, prior)
  {
    hide Entries;
    if prior.Some? { EntryPk(def, pk, prior.value); }
    if change.Some? { EntryPk(def, pk, change.value); }
  }

  lemma IndexDeltaPushAt(def: IndexDef, ch: Changes, prior: Table, pk: DbKey, change: Option<Row>, x: DbKey)
    requires pk !in ch
    ensures Lookup(IndexDelta(def, ch[pk := change], prior), x) ==
            Lookup(IndexDelta(def, ch, prior) + EntryDelta(def, pk, change, Lookup(prior, pk)), x)
  {
    hide EntryAt, EntryDelta, PkOf;
    if PkOf(x) == pk {
      EntryDeltaAt(def, change, Lookup(prior, pk), x);
    } else {
      EntryDeltaOther(def, pk, change, Lookup(prior, pk), x);
    }
  }

  lemma SplitOnlyGroup(cols: Columns, row: Row, g: string)
    requires DistinctNames(cols) && |row| == |cols| && Groups(cols) == {g}
    ensures Split(cols, row, g) == row
  {
    SplitPrefix(cols, row, g, |cols|);
    assert row[..|cols|] == row;
  }

  lemma {:induction false} SplitPrefix(cols: Columns, row: Row, g: string, n: nat)
    requires DistinctNames(cols) && |row| == |cols| && Groups(cols) == {g} && n <= |cols|
    ensures SplitTo(cols, row, g, n) == row[..n]
  {
    if n > 0 {
      SplitPrefix(cols, row, g, n - 1);
      assert cols[n - 1] in cols && cols[n - 1].group in Groups(cols);
      assert ColumnIndex(cols, cols[n - 1].name) == Some(n - 1);
    }
  }

  // ---------- A table's engines ----------

  ghost predicate RowsFit(cols: Columns, ch: Changes)
  {
    forall k :: k in ch && ch[k].Some? ==> |ch[k].value| == |cols|
  }

  function GroupChange(cols: Columns, g: string, change: Option<Row>): Option<Stored>
    requires change.Some? ==> |change.value| == |cols|
  {
    if change.Some? then Some(SubRow(Split(cols, change.value, g))) else None
  }

  /** Appends one change to the batch of every group; a table with one group stores the row as it is. */
  method PushToGroups(cols: Columns, batches: map<string, seq<Mutation>>, k: DbKey, change: Option<Row>)
    returns (batches': map<string, seq<Mutation>>)
    requires DistinctNames(cols) && batches.Keys == Groups(cols) && (change.Some? ==> |change.value| == |cols|)
    ensures batches'.Keys == batches.Keys
    ensures forall g :: g in batches ==> Effect(batches'[g]) == Effect(batches[g])[k := GroupChange(cols, g, change)]
  {
    batches' := batches;
    var todo := batches.Keys;
    while todo != {}
      invariant todo <= batches.Keys && batches'.Keys == batches.Keys
      invariant forall g :: g in todo ==> batches'[g] == batches[g]
      invariant forall g :: g in batches.Keys - todo ==>
        Effect(batches'[g]) == Effect(batches[g])[k := GroupChange(cols, g, change)]
      decreases todo
    {
      var g :| g in todo;
      var m := Delete(k);
      if change.Some? {
        if |batches| == 1 {
          assert |batches.Keys| == 1;
          OnlyElement(batches.Keys, g);
          SplitOnlyGroup(cols, change.value, g);
          m := Put(k, SubRow(change.value));
        } else {
          var sub := SplitRow(cols, change.value, g);
          m := Put(k, SubRow(sub));
        }
      }
      EffectPush(batches[g], m);
      batches' := batches'[g := batches[g] + [m]];
      todo := todo - {g};
    }
  }

  lemma OnlyElement<T>(s: set<T>, x: T)
    requires |s| == 1 && x in s
    ensures s == {x}
  {
    assert |s - {x}| == 0;
  }

  method PushToIndexes(indexes: map<string, IndexDef>, batches: map<string, seq<Mutation>>, pk: DbKey,
                       change: Option<Row>, prior: Option<Row>)
    returns (batches': map<string, seq<Mutation>>)
    requires batches.Keys == indexes.Keys
    ensures batches'.Keys == batches.Keys
    ensures forall i :: i in indexes ==>
      Effect(batches'[i]) == Effect(batches[i]) + EntryDelta(indexes[i], pk, change, prior)
  {
    batches' := batches;
    var todo := batches.Keys;
    while todo != {}
      invariant todo <= batches.Keys && batches'.Keys == batches.Keys
      invariant forall i :: i in todo ==> batches'[i] == batches[i]
      invariant forall i :: i in batches.Keys - todo ==>
        Effect(batches'[i]) == Effect(batches[i]) + EntryDelta(indexes[i], pk, change, prior)
      decreases todo
    {
      var i :| i in todo;
      var ms := EntryMutations(indexes[i], pk, change, prior);
      EffectAppend(batches[i], ms);
      batches' := batches'[i := batches[i] + ms];
      todo := todo - {i};
    }
  }

  ghost predicate GroupsBuilt(cols: Columns, groups: map<string, seq<Mutation>>, ch: Changes)
  {
    && groups.Keys == Groups(cols) && RowsFit(cols, ch)
    && forall g :: g in groups ==> Effect(groups[g]) == GroupDelta(cols, g, ch)
  }

  ghost predicate IndexesBuilt(defs: map<string, IndexDef>, indexes: map<string, seq<Mutation>>, ch: Changes,
      prior: Table)
  {
    && indexes.Keys == defs.Keys
    && forall i :: i in indexes ==> Effect(indexes[i]) == IndexDelta(defs[i], ch, prior)
  }

  lemma GroupDeltaPush(cols: Columns, g: string, ch: Changes, k: DbKey, change: Option<Row>)
    requires RowsFit(cols, ch) && (change.Some? ==> |change.value| == |cols|)
    ensures RowsFit(cols, ch[k := change])
    ensures GroupDelta(cols, g, ch[k := change]) == GroupDelta(cols, g, ch)[k := GroupChange(cols, g, change)]
  {
  }

  lemma GroupsPushed(cols: Columns, groups: map<string, seq<Mutation>>, groups': map<string, seq<Mutation>>,
                     ch: Changes, k: DbKey, change: Option<Row>)
    requires GroupsBuilt(cols, groups, ch) && (change.Some? ==> |change.value| == |cols|)
    requires groups'.Keys == groups.Keys
    requires forall g :: g in groups ==> Effect(groups'[g]) == Effect(groups[g])[k := GroupChange(cols, g, change)]
    ensures GroupsBuilt(cols, groups', ch[k := change])
  {
    forall g | g in groups' ensures RowsFit(cols, ch[k := change]) && Effect(groups'[g]) == GroupDelta(cols, g, ch[k := change]) {
      GroupDeltaPush(cols, g, ch, k, change);
    }
    assert RowsFit(cols, ch[k := change]);
  }

  lemma IndexesPushed(defs: map<string, IndexDef>, indexes: map<string, seq<Mutation>>,
      indexes': map<string, seq<Mutation>>,
                      ch: Changes, prior: Table, k: DbKey, change: Option<Row>)
    requires IndexesBuilt(defs, indexes, ch, prior) && indexes'.Keys == indexes.Keys && k !in ch
    requires forall i :: i in indexes ==>
      Effect(indexes'[i]) == Effect(indexes[i]) + EntryDelta(defs[i], k, change, Lookup(prior, k))
    ensures IndexesBuilt(defs, indexes', ch[k := change], prior)
  {
    forall i | i in indexes' ensures Effect(indexes'[i]) == IndexDelta(defs[i], ch[k := change], prior) {
      IndexDeltaPush(defs[i], ch, prior, k, change);
    }
  }

  lemma NothingBuilt(def: TableDef, prior: Table)
    ensures GroupsBuilt(def.columns, map g | g in Groups(def.columns) :: [], map[])
    ensures IndexesBuilt(def.indexes, map i | i in def.indexes :: [], map[], prior)
  {
    forall i | i in def.indexes ensures IndexDelta(def.indexes[i], map[], prior) == map[] {
      MapsEqual(IndexDelta(def.indexes[i], map[], prior), map[]);
    }
  }

  method PushEntry(def: TableDef, groups: map<string, seq<Mutation>>, indexes: map<string, seq<Mutation>>,
                   ghost ch: Changes, prior: Table, k: DbKey, change: Option<Row>)
    returns (groups': map<string, seq<Mutation>>, indexes': map<string, seq<Mutation>>)
    requires DistinctNames(def.columns) && k !in ch && (change.Some? ==> |change.value| == |def.columns|)
    requires GroupsBuilt(def.columns, groups, ch) && IndexesBuilt(def.indexes, indexes, ch, prior)
    ensures GroupsBuilt(def.columns, groups', ch[k := change]) && IndexesBuilt(def.indexes, indexes', ch[k := change], prior)
  {
    groups' := PushToGroups(def.columns, groups, k, change);
    indexes' := PushToIndexes(def.indexes, indexes, k, change, Lookup(prior, k));
    GroupsPushed(def.columns, groups, groups', ch, k, change);
    IndexesPushed(def.indexes, indexes, indexes', ch, prior, k, change);
  }

  /** All the batches of one write, before any engine is touched. */
  method BuildBatches(def: TableDef, entries: seq<(DbKey, Option<Row>)>, prior: Table)
    returns (groups: map<string, seq<Mutation>>, indexes: map<string, seq<Mutation>>)
    requires DistinctNames(def.columns) && DistinctKeys(entries) && RowsFit(def.columns, ChangesOf(entries))
    ensures GroupsBuilt(def.columns, groups, ChangesOf(entries))
    ensures IndexesBuilt(def.indexes, indexes, ChangesOf(entries), prior)
  {
    hide GroupsBuilt, IndexesBuilt, RowsFit;
    groups := map g | g in Groups(def.columns) :: [];
    indexes := map i | i in def.indexes :: [];
    NothingBuilt(def, prior);
    for n := 0 to |entries|
      invariant GroupsBuilt(def.columns, groups, ChangesOf(entries[..n]))
      invariant IndexesBuilt(def.indexes, indexes, ChangesOf(entries[..n]), prior)
    {
      var (k, change) := entries[n];
      PushFits(def.columns, entries, n);
      ghost var ch := ChangesOf(entries[..n]);
      groups, indexes := PushEntry(def, groups, indexes, ch, prior, k, change);
    }
    assert entries[..|entries|] == entries;
  }

  /** What the loop learns about entry n. */
  lemma {:induction false} PushFits(cols: Columns, entries: seq<(DbKey, Option<Row>)>, n: nat)
    requires n < |entries| && DistinctKeys(entries) && RowsFit(cols, ChangesOf(entries))
    ensures ChangesOf(entries[..n + 1]) == ChangesOf(entries[..n])[entries[n].0 := entries[n].1]
    ensures entries[n].0 !in ChangesOf(entries[..n])
    ensures entries[n].1.Some? ==> |entries[n].1.value| == |cols|
  {
    var last := |entries| - 1;
    assert entries[..n + 1][..n] == entries[..n];
    if n < last {
      var front := entries[..last];
      assert front[..n] == entries[..n] && front[..n + 1] == entries[..n + 1];
      assert forall k :: k in ChangesOf(front) ==> k in ChangesOf(entries) && ChangesOf(entries)[k] == ChangesOf(front)[k];
      PushFits(cols, front, n);
    } else {
      assert entries[..n + 1] == entries;
      assert entries[n].0 in ChangesOf(entries) && ChangesOf(entries)[entries[n].0] == entries[n].1;
    }
  }
}
