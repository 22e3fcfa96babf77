/** Schema evolution with stable column ids: ALTER TABLE, stored layouts, and lazy rewriting of rows. */
module Evolution {
  import opened Values
  import opened Schemas

  datatype StoredColumn = StoredColumn(id: nat, default: Option<DbValue>)

  /** The columns a stored row was written with. */
  type Layout = seq<StoredColumn>

  function CurrentLayout(cols: Columns): Layout
  {
    seq(|cols|, i requires 0 <= i < |cols| => StoredColumn(cols[i].id, cols[i].default))
  }

  predicate DistinctIds(layout: Layout)
  {
    forall i, j :: 0 <= i < j < |layout| ==> layout[i].id != layout[j].id
  }

  /** The first position of an id. */
  function PosOf(layout: Layout, id: nat): (r: Option<nat>)
    ensures r.Some? ==> r.value < |layout| && layout[r.value].id == id && forall j :: 0 <= j < r.value ==> layout[j].id != id
    ensures r.None? ==> forall j :: 0 <= j < |layout| ==> layout[j].id != id
  {
    if layout == [] then None
    else if layout[0].id == id then Some(0)
    else
      var r := PosOf(layout[1..], id);
      if r.Some? then Some(r.value + 1) else None
  }

  /** The value a stored row has for a column id, if its layout has the id and the row is wide enough. */
  function ValueOf(layout: Layout, row: Row, id: nat): Option<DbValue>
  {
    var p := PosOf(layout, id);
    if p.Some? && p.value < |row| then Some(row[p.value]) else None
  }

  function OrElse(v: Option<DbValue>, default: Option<DbValue>): DbValue
  {
    if v.Some? then v.value else if default.Some? then default.value else Null
  }

  /** A stored row as the live schema sees it: matched by id, missing columns at their defaults. */
  function Reconciled(cols: Columns, row: Row, layout: Layout): Row
  {
    seq(|cols|, i requires 0 <= i < |cols| => OrElse(ValueOf(layout, row, cols[i].id), cols[i].default))
  }

  // ---------- Reading and rewriting rows ----------

  method ReconcileWithLayout(cols: Columns, row: Row, layout: Layout) returns (full: Row)
    requires DistinctIds(layout) && DistinctIds(CurrentLayout(cols))
    ensures full == Reconciled(cols, row, layout)
  {
    hide ValueOf, OrElse;
    full := DefaultRow(cols);
    NothingPlaced(cols, row, layout);
    for n := 0 to |layout|
      invariant |full| == |cols|
      invariant forall i :: 0 <= i < |cols| ==> full[i] == OrElse(ValueOf(layout[..n], row, cols[i].id), cols[i].default)
    {
      forall i | 0 <= i < |cols|
        ensures OrElse(ValueOf(layout[..n + 1], row, cols[i].id), cols[i].default) ==
          if n < |row| && cols[i].id == layout[n].id then row[n] else OrElse(ValueOf(layout[..n], row, cols[i].id), cols[i].default)
      {
        Placed(row, layout, n, cols[i].id, cols[i].default);
      }
      if n < |row| {
        var dst := PosOf(CurrentLayout(cols), layout[n].id);
        if dst.Some? {
          full := full[dst.value := row[n]];
        }
        forall i | 0 <= i < |cols| && dst != Some(i) ensures cols[i].id != layout[n].id {
          assert CurrentLayout(cols)[i].id == cols[i].id;
        }
      }
    }
    assert layout[..|layout|] == layout;
  }

  lemma NothingPlaced(cols: Columns, row: Row, layout: Layout)
    ensures forall i :: 0 <= i < |cols| ==> DefaultRow(cols)[i] == OrElse(ValueOf(layout[..0], row, cols[i].id), cols[i].default)
  {
  }

  lemma Placed(row: Row, layout: Layout, n: nat, id: nat, default: Option<DbValue>)
    requires DistinctIds(layout) && n < |layout|
    ensures OrElse(ValueOf(layout[..n + 1], row, id), default) ==
            if n < |row| && id == layout[n].id then row[n] else OrElse(ValueOf(layout[..n], row, id), default)
  {
    PosOfPrefix(layout, n, id);
    PosOfPrefix(layout, n + 1, id);
    if id == layout[n].id {
      assert PosOf(layout, id) == Some(n);
    }
  }

  /** In a layout with distinct ids, an id has one position, in every prefix that reaches it. */
  lemma PosOfPrefix(layout: Layout, n: nat, id: nat)
    requires DistinctIds(layout) && n <= |layout|
    ensures PosOf(layout[..n], id) == if PosOf(layout, id).Some? && PosOf(layout, id).value < n then PosOf(layout, id) else None
  {
    var p, q := PosOf(layout[..n], id), PosOf(layout, id);
    assert q.Some? && q.value < n ==> layout[..n][q.value].id == id;
    assert p.Some? ==> layout[p.value].id == id;
  }

  /** The read path, for rows that are a prefix of the live columns. */
  method ReconcileRow(cols: Columns, row: Row) returns (full: Row)
    requires DistinctIds(CurrentLayout(cols))
    ensures full == Reconciled(cols, row, CurrentLayout(cols))
    ensures |row| == |cols| ==> full == row
  {
    var layout := CurrentLayout(cols);
    forall i | 0 <= i < |cols| ensures PosOf(layout, cols[i].id) == Some(i) {
      assert layout[i].id == cols[i].id;
    }
    if |row| == |cols| {
      return row;
    }
    var n := if |row| <= |cols| then |row| else |cols|;
    forall i | 0 <= i < |cols| ensures ValueOf(layout[..n], row, cols[i].id) == ValueOf(layout, row, cols[i].id) {
      PosOfPrefix(layout, n, cols[i].id);
    }
    full := ReconcileWithLayout(cols, row, layout[..n]);
  }

  /** A row moved from one layout to another. */
  function Rewritten(src: Layout, dst: Layout, row: Row): Row
  {
    if src == dst then row
    else seq(|dst|, i requires 0 <= i < |dst| => OrElse(ValueOf(src, row, dst[i].id), dst[i].default))
  }

  /** The rewriter. None is the empty layout of data that never had one: its rows are a prefix of the target. */
  method Rewrite(src: Option<Layout>, dst: Option<Layout>, row: Row) returns (out: Row)
    ensures dst.None? ==> out == row
    ensures src.Some? && dst.Some? ==> out == Rewritten(src.value, dst.value, row)
    ensures src.None? && dst.Some? ==>
      |out| == |dst.value| &&
      (DistinctIds(dst.value) ==> forall i :: 0 <= i < |out| ==> out[i] == if i < |row| then row[i] else OrElse(None, dst.value[i].default))
  {
    if src == dst || dst.None? {
      return row;
    }
    var to := dst.value;
    var from := if src.None? then PrefixLayout(to, row) else src.value;
    out := [];
    for n := 0 to |to|
      invariant |out| == n
      invariant forall i :: 0 <= i < n ==> out[i] == OrElse(ValueOf(from, row, to[i].id), to[i].default)
    {
      var p := PosOf(from, to[n].id);
      if p.Some? && p.value < |row| {
        out := out + [row[p.value]];
      } else {
        out := out + [if to[n].default.Some? then to[n].default.value else Null];
      }
    }
    if src.None? && DistinctIds(to) {
      PrefixValues(to, row);
    }
  }

  function PrefixLayout(layout: Layout, row: Row): Layout
  {
    if |row| <= |layout| then layout[..|row|] else layout
  }

  lemma PrefixValues(layout: Layout, row: Row)
    requires DistinctIds(layout)
    ensures forall i :: 0 <= i < |layout| ==>
      ValueOf(PrefixLayout(layout, row), row, layout[i].id) == if i < |row| then Some(row[i]) else None
  {
    var n := |PrefixLayout(layout, row)|;
    assert PrefixLayout(layout, row) == layout[..n];
    forall i | 0 <= i < |layout| ensures PosOf(layout[..n], layout[i].id) == if i < n then Some(i) else None {
      PosOfPrefix(layout, n, layout[i].id);
      assert PosOf(layout, layout[i].id) == Some(i);
    }
  }

  // ---------- Schemas and their histories ----------

  /** Indexes name their columns. */
  datatype Schema = Schema(columns: Columns, nextId: nat, indexes: map<string, seq<string>>)

  datatype Alter =
    | Add(column: Column, tableEmpty: bool)
    | Rename(from: string, to: string)
    | Drop(name: string)
    | CreateIndex(index: string, on: seq<string>)
    | DropIndex(index: string)

  function Numbered(cols: Columns): Columns
  {
    seq(|cols|, i requires 0 <= i < |cols| => cols[i].(id := i))
  }

  function Create(cols: Columns): Schema
  {
    Schema(Numbered(cols), |cols|, map[])
  }

  function RenamedColumns(cols: Columns, from: string, to: string): Columns
  {
    seq(|cols|, i requires 0 <= i < |cols| => if cols[i].name == from then cols[i].(name := to) else cols[i])
  }

  function RenamedNames(names: seq<string>, from: string, to: string): seq<string>
  {
    seq(|names|, i requires 0 <= i < |names| => if names[i] == from then to else names[i])
  }

  function RenamedIndexes(indexes: map<string, seq<string>>, from: string, to: string): map<string, seq<string>>
  {
    map x | x in indexes :: RenamedNames(indexes[x], from, to)
  }

  predicate Indexed(indexes: map<string, seq<string>>, name: string)
  {
    exists x :: x in indexes && name in indexes[x]
  }

  /** One change of the schema; None when it is rejected. */
  function Step(s: Schema, a: Alter): Option<Schema>
  {
    match a
    case Add(column, tableEmpty) =>
      if ColumnIndex(s.columns, column.name).Some? then None
      else if !column.isNullable && column.default.None? && !tableEmpty then None
      else if column.group != "" then None
      else Some(s.(columns := s.columns + [column.(id := s.nextId)], nextId := s.nextId + 1))
    case Rename(from, to) =>
      if ColumnIndex(s.columns, from).None? then None
      else if from != to && ColumnIndex(s.columns, to).Some? then None
      else Some(s.(columns := RenamedColumns(s.columns, from, to), indexes := RenamedIndexes(s.indexes, from, to)))
    case Drop(name) =>
      var i := ColumnIndex(s.columns, name);
      if i.None? || s.columns[i.value].isPrimaryKey || Indexed(s.indexes, name) then None
      else Some(s.(columns := s.columns[..i.value] + s.columns[i.value + 1..]))
    case CreateIndex(index, on) =>
      if index in s.indexes || (exists c :: c in on && ColumnIndex(s.columns, c).None?) then None
      else Some(s.(indexes := s.indexes[index := on]))
    case DropIndex(index) =>
      if index !in s.indexes then None else Some(s.(indexes := s.indexes - {index}))
  }

  /** Schema and layout history after a run; a rejected ALTER changes neither. */
  function Run(cols: Columns, alters: seq<Alter>): (Schema, seq<Layout>)
  {
    if alters == [] then (Create(cols), [CurrentLayout(Numbered(cols))])
    else
      var (s, h) := Run(cols, alters[..|alters| - 1]);
      var s' := Step(s, alters[|alters| - 1]);
      if s'.None? then (s, h) else (s'.value, h + [CurrentLayout(s'.value.columns)])
  }

  predicate HasId(layout: Layout, id: nat)
  {
    exists i :: 0 <= i < |layout| && layout[i].id == id
  }

  ghost predicate IdsBelow(layout: Layout, n: nat)
  {
    forall i :: 0 <= i < |layout| ==> layout[i].id < n
  }

  /** An id keeps its default for ever. */
  ghost predicate SameDefaults(a: Layout, b: Layout)
  {
    forall i, j :: 0 <= i < |a| && 0 <= j < |b| && a[i].id == b[j].id ==> a[i].default == b[j].default
  }

  ghost predicate HistoryOk(h: seq<Layout>, s: Schema)
  {
    && h != [] && h[|h| - 1] == CurrentLayout(s.columns)
    && (forall i :: 0 <= i < |h| ==> DistinctIds(h[i]) && IdsBelow(h[i], s.nextId))
    && (forall i, j :: 0 <= i < |h| && 0 <= j < |h| ==> SameDefaults(h[i], h[j]))
    && (forall i, j, k, id :: 0 <= i <= j <= k < |h| && HasId(h[i], id) && HasId(h[k], id) ==> HasId(h[j], id))
  }

  /** What one accepted ALTER may do to a layout: drop ids, or add the next one. */
  ghost predicate Follows(a: Layout, b: Layout, n: nat, n': nat)
  {
    && n <= n' && DistinctIds(b) && IdsBelow(b, n')
    && (forall j :: 0 <= j < |b| ==> b[j].id >= n || exists i :: 0 <= i < |a| && a[i] == b[j])
  }

  lemma DropFollows(before: Layout, i: nat, n: nat)
    requires DistinctIds(before) && IdsBelow(before, n) && i < |before|
    ensures Follows(before, before[..i] + before[i + 1..], n, n)
  {
    var after := before[..i] + before[i + 1..];
    assert forall j :: 0 <= j < |after| ==> after[j] == before[if j < i then j else j + 1];
  }

  lemma StepFollows(s: Schema, a: Alter)
    requires DistinctIds(CurrentLayout(s.columns)) && IdsBelow(CurrentLayout(s.columns), s.nextId) && Step(s, a).Some?
    ensures Follows(CurrentLayout(s.columns), CurrentLayout(Step(s, a).value.columns), s.nextId, Step(s, a).value.nextId)
  {
    var before, after := CurrentLayout(s.columns), CurrentLayout(Step(s, a).value.columns);
    match a
    case Add(column, _) =>
      assert after == before + [StoredColumn(s.nextId, column.default)];
    case Rename(_, _) =>
      assert after == before;
    case Drop(name) =>
      var i := ColumnIndex(s.columns, name).value;
      assert after == before[..i] + before[i + 1..];
      DropFollows(before, i, s.nextId);
    case _ =>
      assert after == before;
  }

  lemma HistoryGrows(h: seq<Layout>, s: Schema, s': Schema)
    requires HistoryOk(h, s) && Follows(CurrentLayout(s.columns), CurrentLayout(s'.columns), s.nextId, s'.nextId)
    ensures HistoryOk(h + [CurrentLayout(s'.columns)], s')
  {
    var last, more := h[|h| - 1], CurrentLayout(s'.columns);
    var h' := h + [more];
    forall i | 0 <= i < |h| ensures SameDefaults(h[i], more) && SameDefaults(more, h[i]) {
      assert SameDefaults(h[i], last);
    }
    assert SameDefaults(more, more);
    forall i, j, k, id: nat | 0 <= i <= j <= k < |h'| && HasId(h'[i], id) && HasId(h'[k], id) ensures HasId(h'[j], id) {
      if j < |h| == k {
        assert HasId(last, id) by {
          var q :| 0 <= q < |h[i]| && h[i][q].id == id;
          assert id < s.nextId;
          var p :| 0 <= p < |more| && more[p].id == id;
        }
        assert HasId(h[j], id);
      }
    }
  }

  /** Over any sequence of schema changes: ids stay distinct and below the next id, never return, and keep their default. */
  lemma {:induction false} EveryRunKeepsIds(cols: Columns, alters: seq<Alter>)
    ensures HistoryOk(Run(cols, alters).1, Run(cols, alters).0)
    decreases |alters|
  {
    if alters == [] {
      var layout := CurrentLayout(Numbered(cols));
      assert Run(cols, alters).1 == [layout];
      assert SameDefaults(layout, layout);
    } else {
      var n := |alters| - 1;
      EveryRunKeepsIds(cols, alters[..n]);
      var (s, h) := Run(cols, alters[..n]);
      if Step(s, alters[n]).Some? {
        StepFollows(s, alters[n]);
        HistoryGrows(h, s, Step(s, alters[n]).value);
      }
    }
  }

  // ---------- Rewriting through intermediate layouts ----------

  /** A row carried through the layouts at the given points of the history. */
  function Through(h: seq<Layout>, chain: seq<nat>, row: Row): Row
    requires forall i :: 0 <= i < |chain| ==> chain[i] < |h|
    decreases |chain|
  {
    if |chain| <= 1 then row
    else Through(h, chain[1..], Rewritten(h[chain[0]], h[chain[1]], row))
  }

  predicate Ascends(h: seq<Layout>, chain: seq<nat>)
  {
    && chain != [] && (forall i :: 0 <= i < |chain| ==> chain[i] < |h|)
    && (forall i, j :: 0 <= i < j < |chain| ==> chain[i] <= chain[j])
  }

  lemma HasPos(layout: Layout, id: nat)
    ensures HasId(layout, id) <==> PosOf(layout, id).Some?
  {
    var p := PosOf(layout, id);
    if p.Some? { assert layout[p.value].id == id; }
  }

  lemma RewriteKeepsColumn(h: seq<Layout>, s: Schema, i: nat, j: nat, row: Row, c: nat)
    requires HistoryOk(h, s) && i <= j < |h| && c < |s.columns|
    ensures OrElse(ValueOf(h[j], Rewritten(h[i], h[j], row), s.columns[c].id), s.columns[c].default) ==
            OrElse(ValueOf(h[i], row, s.columns[c].id), s.columns[c].default)
  {
    var id, last := s.columns[c].id, h[|h| - 1];
    assert last[c].id == id && last[c].default == s.columns[c].default;
    assert HasId(last, id);
    HasPos(h[i], id);
    HasPos(h[j], id);
    if h[i] != h[j] {
      var q := PosOf(h[j], id);
      if q.Some? {
        assert SameDefaults(h[j], last);
        assert Rewritten(h[i], h[j], row)[q.value] == OrElse(ValueOf(h[i], row, id), h[j][q.value].default);
      } else {
        assert !HasId(h[i], id);
      }
    }
  }

  /** Moving a row to a later layout does not change what the live schema makes of it. */
  lemma RewriteKeeps(h: seq<Layout>, s: Schema, i: nat, j: nat, row: Row)
    requires HistoryOk(h, s) && i <= j < |h|
    ensures Reconciled(s.columns, Rewritten(h[i], h[j], row), h[j]) == Reconciled(s.columns, row, h[i])
  {
    forall c | 0 <= c < |s.columns|
      ensures Reconciled(s.columns, Rewritten(h[i], h[j], row), h[j])[c] == Reconciled(s.columns, row, h[i])[c]
    {
      RewriteKeepsColumn(h, s, i, j, row, c);
    }
  }

  lemma {:induction false} ChainKeeps(h: seq<Layout>, s: Schema, chain: seq<nat>, row: Row)
    requires HistoryOk(h, s) && Ascends(h, chain)
    ensures Reconciled(s.columns, Through(h, chain, row), h[chain[|chain| - 1]]) == Reconciled(s.columns, row, h[chain[0]])
    decreases |chain|
  {
    if |chain| > 1 {
      RewriteKeeps(h, s, chain[0], chain[1], row);
      ChainKeeps(h, s, chain[1..], Rewritten(h[chain[0]], h[chain[1]], row));
    }
  }

  /** After any ALTERs, a row of any stored layout reads the same whether it was rewritten step by step
      through any intermediate layouts, in one step, or not at all. */
  lemma EveryChainReadsTheSame(cols: Columns, alters: seq<Alter>, chain: seq<nat>, row: Row)
    requires Ascends(Run(cols, alters).1, chain)
    ensures var (s, h) := Run(cols, alters);
            var (first, last) := (chain[0], |h| - 1);
            && h[last] == CurrentLayout(s.columns)
            && Reconciled(s.columns, Through(h, chain, row), h[chain[|chain| - 1]]) == Reconciled(s.columns, row, h[first])
            && Reconciled(s.columns, Rewritten(h[first], h[last], row), h[last]) == Reconciled(s.columns, row, h[first])
            && (h[first] != h[last] ==> Rewritten(h[first], h[last], row) == Reconciled(s.columns, row, h[first]))
  {
    hide Through;
    EveryRunKeepsIds(cols, alters);
    var (s, h) := Run(cols, alters);
    hide Run;
    ChainKeeps(h, s, chain, row);
    RewriteKeeps(h, s, chain[0], |h| - 1, row);
  }

  // ---------- The table object ----------

  class EvolvingTable {
    var schema: Schema
    var targetLayout: Layout
    ghost var history: seq<Layout>

    constructor (cols: Columns)
      ensures Valid() && schema == Create(cols) && history == [CurrentLayout(Numbered(cols))]
    {
      schema := Create(cols);
      targetLayout := CurrentLayout(Numbered(cols));
      history := [CurrentLayout(Numbered(cols))];
      new;
      EveryRunKeepsIds(cols, []);
      assert Run(cols, []) == (schema, history);
    }

    ghost predicate Valid()
      reads this
    {
      HistoryOk(history, schema) && targetLayout == history[|history| - 1]
    }

    method AddColumn(column: Column, tableEmpty: bool) returns (ok: bool)
      requires Valid()
      modifies this
      ensures Valid() && Altered(old(schema), old(history), schema, history, Add(column, tableEmpty), ok)
    {
      if ColumnIndex(schema.columns, column.name).Some? {
        return false;
      }
      if !column.isNullable && column.default.None? && !tableEmpty {
        return false;
      }
      if column.group != "" {
        return false;
      }
      Grow(schema, history, Add(column, tableEmpty));
      schema := schema.(columns := schema.columns + [column.(id := schema.nextId)], nextId := schema.nextId + 1);
      Publish();
      ok := true;
    }

    method RenameColumn(from: string, to: string) returns (ok: bool)
      requires Valid()
      modifies this
      ensures Valid() && Altered(old(schema), old(history), schema, history, Rename(from, to), ok)
    {
      if ColumnIndex(schema.columns, from).None? {
        return false;
      }
      if from != to && ColumnIndex(schema.columns, to).Some? {
        return false;
      }
      Grow(schema, history, Rename(from, to));
      var cols := schema.columns;
      for n := 0 to |cols|
        invariant schema == old(schema) && history == old(history) && |cols| == |schema.columns|
        invariant forall i :: 0 <= i < n ==> cols[i] == RenamedColumns(schema.columns, from, to)[i]
        invariant forall i :: n <= i < |cols| ==> cols[i] == schema.columns[i]
      {
        if cols[n].name == from {
          cols := cols[n := cols[n].(name := to)];
        }
      }
      assert cols == RenamedColumns(schema.columns, from, to);
      schema := schema.(columns := cols, indexes := RenamedIndexes(schema.indexes, from, to));
      Publish();
      ok := true;
    }

    method DropColumn(name: string) returns (ok: bool)
      requires Valid()
      modifies this
      ensures Valid() && Altered(old(schema), old(history), schema, history, Drop(name), ok)
    {
      var i := ColumnIndex(schema.columns, name);
      if i.None? || schema.columns[i.value].isPrimaryKey || Indexed(schema.indexes, name) {
        return false;
      }
      Grow(schema, history, Drop(name));
      schema := schema.(columns := schema.columns[..i.value] + schema.columns[i.value + 1..]);
      Publish();
      ok := true;
    }

    method Publish()
      modifies this`targetLayout, this`history
      ensures targetLayout == CurrentLayout(schema.columns) && history == old(history) + [targetLayout]
    {
      targetLayout := CurrentLayout(schema.columns);
      history := history + [targetLayout];
    }
  }

  /** An ALTER succeeds exactly when its step is defined, and then does that step. */
  ghost predicate Altered(s: Schema, h: seq<Layout>, s': Schema, h': seq<Layout>, a: Alter, ok: bool)
  {
    && ok == Step(s, a).Some?
    && s' == (if ok then Step(s, a).value else s)
    && h' == (if ok then h + [CurrentLayout(s'.columns)] else h)
  }

  lemma Grow(s: Schema, h: seq<Layout>, a: Alter)
    requires HistoryOk(h, s)
    ensures Step(s, a).Some? ==> HistoryOk(h + [CurrentLayout(Step(s, a).value.columns)], Step(s, a).value)
  {
    if Step(s, a).Some? {
      StepFollows(s, a);
      HistoryGrows(h, s, Step(s, a).value);
    }
  }
}
