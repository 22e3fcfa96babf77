/** What schema changes mean to a reader of names: defaults, renamed, dropped and kept columns, over all runs. */
module AlterRuns {
  import opened Values
  import opened Schemas
  import opened Evolution

  predicate HasColumn(cols: Columns, name: string)
  {
    exists i :: 0 <= i < |cols| && cols[i].name == name
  }

  /** What the schema makes of a stored row under a column name; None without such a column. */
  function ReadAs(s: Schema, row: Row, layout: Layout, name: string): Option<DbValue>
  {
    var i := ColumnIndex(s.columns, name);
    if i.None? then None else Some(OrElse(ValueOf(layout, row, s.columns[i.value].id), s.columns[i.value].default))
  }

  /** A schema change is accepted exactly when the table allows it. */
  ghost predicate Allowed(s: Schema, a: Alter)
  {
    match a
    case Add(column, tableEmpty) =>
      && !HasColumn(s.columns, column.name) && column.group == ""
      && (column.isNullable || column.default.Some? || tableEmpty)
    case Rename(from, to) => HasColumn(s.columns, from) && (from == to || !HasColumn(s.columns, to))
    case Drop(name) =>
      && HasColumn(s.columns, name) && !(exists x :: x in s.indexes && name in s.indexes[x])
      && forall i :: 0 <= i < |s.columns| && s.columns[i].name == name ==> !s.columns[i].isPrimaryKey
    case CreateIndex(index, on) => index !in s.indexes && forall c :: c in on ==> HasColumn(s.columns, c)
    case DropIndex(index) => index in s.indexes
  }

  lemma HasColumnIff(cols: Columns, name: string)
    ensures HasColumn(cols, name) <==> ColumnIndex(cols, name).Some?
  {
  }

  lemma AcceptedExactly(s: Schema, a: Alter)
    requires DistinctNames(s.columns)
    ensures Step(s, a).Some? <==> Allowed(s, a)
  {
    forall name ensures HasColumn(s.columns, name) <==> ColumnIndex(s.columns, name).Some? {
      HasColumnIff(s.columns, name);
    }
  }

  // ---------- Names ----------

  lemma StepNames(s: Schema, a: Alter)
    requires DistinctNames(s.columns) && Step(s, a).Some?
    ensures DistinctNames(Step(s, a).value.columns)
  {
    if a.Drop? {
      var i := ColumnIndex(s.columns, a.name).value;
      var after := s.columns[..i] + s.columns[i + 1..];
      assert forall j :: 0 <= j < |after| ==> after[j] == s.columns[if j < i then j else j + 1];
    }
  }

  lemma {:induction false} EveryRunKeepsNames(cols: Columns, alters: seq<Alter>)
    requires DistinctNames(cols)
    ensures DistinctNames(Run(cols, alters).0.columns)
    decreases |alters|
  {
    if alters != [] {
      var n := |alters| - 1;
      EveryRunKeepsNames(cols, alters[..n]);
      var s := Run(cols, alters[..n]).0;
      if Step(s, alters[n]).Some? {
        StepNames(s, alters[n]);
      }
    }
  }

  lemma IndexIs(cols: Columns, name: string, i: nat)
    requires DistinctNames(cols) && i < |cols| && cols[i].name == name
    ensures ColumnIndex(cols, name) == Some(i)
  {
    var r := ColumnIndex(cols, name);
    assert r.Some?;
  }

  // ---------- Reading after one change, whatever came before ----------

  /** After any run, a stored row reads under a column's name, and in that column of the row the live
      schema makes of it, as the value at the place its layout has the column's id; as the default
      where the layout lacks the id or the row is too short. */
  lemma EveryRowReadsById(cols: Columns, alters: seq<Alter>, i: nat, row: Row, c: nat)
    requires DistinctNames(cols) && i < |Run(cols, alters).1| && c < |Run(cols, alters).0.columns|
    ensures var (s, h) := Run(cols, alters);
            var read := ReadAs(s, row, h[i], s.columns[c].name);
            && read == Some(Reconciled(s.columns, row, h[i])[c])
            && (forall p :: 0 <= p < |h[i]| && p < |row| && h[i][p].id == s.columns[c].id ==> read == Some(row[p]))
            && ((forall p :: 0 <= p < |h[i]| && p < |row| ==> h[i][p].id != s.columns[c].id) ==>
                 read == Some(GetOr(s.columns[c].default, Null)))
  {
    EveryRunKeepsIds(cols, alters);
    EveryRunKeepsNames(cols, alters);
    var (s, h) := Run(cols, alters);
    assert DistinctIds(h[i]);
    hide Run, HistoryOk, ValueOf, DistinctIds, DistinctNames;
    IndexIs(s.columns, s.columns[c].name, c);
    ValueAtId(h[i], row, s.columns[c].id);
  }

  lemma ValueAtId(layout: Layout, row: Row, id: nat)
    requires DistinctIds(layout)
    ensures forall p :: 0 <= p < |layout| && p < |row| && layout[p].id == id ==> ValueOf(layout, row, id) == Some(row[p])
    ensures (forall p :: 0 <= p < |layout| && p < |row| ==> layout[p].id != id) ==> ValueOf(layout, row, id) == None
  {
  }

  /** After any run, a row written with the live schema reads back as it is. */
  lemma EveryRowReadsBack(cols: Columns, alters: seq<Alter>, row: Row)
    requires DistinctNames(cols) && |row| == |Run(cols, alters).0.columns|
    ensures var (s, h) := Run(cols, alters);
            h != [] && Reconciled(s.columns, row, h[|h| - 1]) == row
  {
    EveryRunKeepsIds(cols, alters);
    var (s, h) := Run(cols, alters);
    var last := h[|h| - 1];
    assert last == CurrentLayout(s.columns) && DistinctIds(last);
    hide Run, HistoryOk, ValueOf, DistinctIds;
    forall c | 0 <= c < |row| ensures Reconciled(s.columns, row, last)[c] == row[c] {
      ValueAtId(last, row, s.columns[c].id);
      assert last[c].id == s.columns[c].id;
    }
  }

  lemma FreshId(h: seq<Layout>, s: Schema, i: nat)
    requires HistoryOk(h, s) && i < |h|
    ensures PosOf(h[i], s.nextId).None?
  {
    assert IdsBelow(h[i], s.nextId);
  }

  /** After any run, a new column reads as its declared default in every row stored before, whatever its
      layout, and every other column reads as it did. */
  lemma EveryAddReadsDefault(cols: Columns, alters: seq<Alter>, column: Column, tableEmpty: bool, i: nat, row: Row, name: string)
    requires DistinctNames(cols) && i < |Run(cols, alters).1| && Step(Run(cols, alters).0, Add(column, tableEmpty)).Some?
    ensures var (s, h) := Run(cols, alters);
            var s' := Step(s, Add(column, tableEmpty)).value;
            && ReadAs(s', row, h[i], column.name) == Some(GetOr(column.default, Null))
            && (name != column.name ==> ReadAs(s', row, h[i], name) == ReadAs(s, row, h[i], name))
  {
    EveryRunKeepsIds(cols, alters);
    EveryRunKeepsNames(cols, alters);
    var (s, h) := Run(cols, alters);
    hide Run;
    var s' := Step(s, Add(column, tableEmpty)).value;
    StepNames(s, Add(column, tableEmpty));
    FreshId(h, s, i);
    IndexIs(s'.columns, column.name, |s.columns|);
    var j := ColumnIndex(s.columns, name);
    if name != column.name && j.Some? {
      IndexIs(s'.columns, name, j.value);
    }
  }

  /** After any run, a renamed column is found under its new name only, with the values it had. */
  lemma EveryRenameMoves(cols: Columns, alters: seq<Alter>, from: string, to: string, layout: Layout, row: Row, name: string)
    requires DistinctNames(cols) && from != to && Step(Run(cols, alters).0, Rename(from, to)).Some?
    ensures var s := Run(cols, alters).0;
            var s' := Step(s, Rename(from, to)).value;
            && ReadAs(s', row, layout, to) == ReadAs(s, row, layout, from) != None && ReadAs(s', row, layout, from) == None
            && (name != from && name != to ==> ReadAs(s', row, layout, name) == ReadAs(s, row, layout, name))
  {
    EveryRunKeepsNames(cols, alters);
    var s := Run(cols, alters).0;
    hide Run;
    var s' := Step(s, Rename(from, to)).value;
    StepNames(s, Rename(from, to));
    var i := ColumnIndex(s.columns, from).value;
    IndexIs(s'.columns, to, i);
    assert forall k :: 0 <= k < |s.columns| ==> s'.columns[k].name != from;
    var j := ColumnIndex(s.columns, name);
    if name != from && name != to {
      if j.Some? {
        IndexIs(s'.columns, name, j.value);
      } else {
        assert forall k :: 0 <= k < |s.columns| ==> s'.columns[k].name != name;
      }
    }
  }

  lemma RestDistinct(cols: Columns, i: nat)
    requires DistinctNames(cols) && i < |cols|
    ensures var rest := cols[..i] + cols[i + 1..];
            && DistinctNames(rest) && (forall k :: 0 <= k < |rest| ==> rest[k].name != cols[i].name)
            && forall k :: 0 <= k < |rest| ==> rest[k] == cols[if k < i then k else k + 1]
  {
    var rest := cols[..i] + cols[i + 1..];
    assert forall k :: 0 <= k < |rest| ==> rest[k] == cols[if k < i then k else k + 1];
  }

  /** Without one column, its name is found no more and every other name finds the same column. */
  lemma Without(cols: Columns, i: nat, name: string)
    requires DistinctNames(cols) && i < |cols|
    ensures var rest := cols[..i] + cols[i + 1..];
            var j, k := ColumnIndex(cols, name), ColumnIndex(rest, name);
            if name == cols[i].name || j.None? then k.None? else k.Some? && rest[k.value] == cols[j.value]
  {
    var rest := cols[..i] + cols[i + 1..];
    RestDistinct(cols, i);
    var j := ColumnIndex(cols, name);
    if name != cols[i].name && j.Some? {
      hide DistinctNames;
      var k := if j.value < i then j.value else j.value - 1;
      assert rest[k] == cols[j.value];
      IndexIs(rest, name, k);
    }
  }

  /** After any run, a dropped column is found no more, and the others read as they did. */
  lemma EveryDropForgets(cols: Columns, alters: seq<Alter>, dropped: string, layout: Layout, row: Row, name: string)
    requires DistinctNames(cols) && Step(Run(cols, alters).0, Drop(dropped)).Some?
    ensures var s := Run(cols, alters).0;
            var s' := Step(s, Drop(dropped)).value;
            && ReadAs(s', row, layout, dropped) == None
            && (name != dropped ==> ReadAs(s', row, layout, name) == ReadAs(s, row, layout, name))
  {
    EveryRunKeepsNames(cols, alters);
    var s := Run(cols, alters).0;
    hide Run;
    var s' := Step(s, Drop(dropped)).value;
    Without(s.columns, ColumnIndex(s.columns, dropped).value, name);
    Without(s.columns, ColumnIndex(s.columns, dropped).value, dropped);
  }

  // ---------- What no run loses ----------

  predicate HasKeyColumn(cols: Columns, id: nat)
  {
    exists i :: 0 <= i < |cols| && cols[i].id == id && cols[i].isPrimaryKey
  }

  lemma StepKeepsKey(s: Schema, a: Alter, id: nat)
    requires HasKeyColumn(s.columns, id) && Step(s, a).Some?
    ensures HasKeyColumn(Step(s, a).value.columns, id)
  {
    var i :| 0 <= i < |s.columns| && s.columns[i].id == id && s.columns[i].isPrimaryKey;
    var after := Step(s, a).value.columns;
    if a.Drop? {
      var d := ColumnIndex(s.columns, a.name).value;
      var j := if i < d then i else i - 1;
      assert i != d && after[j] == s.columns[i];
    } else {
      assert after[i].id == id && after[i].isPrimaryKey;
    }
  }

  /** No run of schema changes loses a column of the primary key. */
  lemma {:induction false} EveryRunKeepsKeyColumns(cols: Columns, alters: seq<Alter>, i: nat)
    requires i < |cols| && cols[i].isPrimaryKey
    ensures HasKeyColumn(Run(cols, alters).0.columns, i)
    decreases |alters|
  {
    if alters == [] {
      assert Numbered(cols)[i].id == i && Numbered(cols)[i].isPrimaryKey;
    } else {
      var n := |alters| - 1;
      EveryRunKeepsKeyColumns(cols, alters[..n], i);
      var s := Run(cols, alters[..n]).0;
      if Step(s, alters[n]).Some? {
        StepKeepsKey(s, alters[n], i);
      }
    }
  }

  /** The column of an index, by position. */
  function IndexColumn(s: Schema, index: string, p: nat): Option<nat>
    requires index in s.indexes && p < |s.indexes[index]|
  {
    var i := ColumnIndex(s.columns, s.indexes[index][p]);
    if i.None? then None else Some(s.columns[i.value].id)
  }

  ghost predicate IndexesResolve(s: Schema)
  {
    forall x, p :: x in s.indexes && 0 <= p < |s.indexes[x]| ==> IndexColumn(s, x, p).Some?
  }

  /** Until it is dropped, an index keeps naming the same columns, through every other change. */
  lemma StepKeepsIndex(s: Schema, a: Alter, x: string, p: nat)
    requires DistinctNames(s.columns) && IndexesResolve(s) && Step(s, a).Some? && a != DropIndex(x)
    requires x in s.indexes && p < |s.indexes[x]|
    ensures var s' := Step(s, a).value;
            x in s'.indexes && |s'.indexes[x]| == |s.indexes[x]| && IndexColumn(s', x, p) == IndexColumn(s, x, p)
  {
    var s' := Step(s, a).value;
    StepNames(s, a);
    var name := s.indexes[x][p];
    assert IndexColumn(s, x, p).Some?;
    var i := ColumnIndex(s.columns, name).value;
    match a
    case Add(_, _) => IndexIs(s'.columns, name, i);
    case Rename(from, to) => IndexIs(s'.columns, if name == from then to else name, i);
    case Drop(dropped) =>
      assert name in s.indexes[x];
      var d := ColumnIndex(s.columns, dropped).value;
      assert d != i;
      IndexIs(s'.columns, name, if i < d then i else i - 1);
    case _ =>
  }

  lemma StepResolves(s: Schema, a: Alter)
    requires DistinctNames(s.columns) && IndexesResolve(s) && Step(s, a).Some?
    ensures IndexesResolve(Step(s, a).value)
  {
    var s' := Step(s, a).value;
    forall x, p: nat | x in s'.indexes && p < |s'.indexes[x]| ensures IndexColumn(s', x, p).Some? {
      if x in s.indexes {
        var same := |s'.indexes[x]| == |s.indexes[x]|;
        assert a.Rename? ==> same;
        StepKeepsIndex(s, a, x, p);
      } else {
        assert s'.indexes[x][p] in s'.indexes[x];
      }
    }
  }

  /** After any run every index column exists, and one more change, unless it drops the index, leaves
      each index on the columns it was created on. */
  lemma EveryRunKeepsIndexes(cols: Columns, alters: seq<Alter>, a: Alter, x: string, p: nat)
    requires DistinctNames(cols)
    ensures IndexesResolve(Run(cols, alters).0)
    ensures var s := Run(cols, alters).0;
            Step(s, a).Some? && a != DropIndex(x) && x in s.indexes && p < |s.indexes[x]| ==>
            var s' := Step(s, a).value;
            x in s'.indexes && |s'.indexes[x]| == |s.indexes[x]| && IndexColumn(s', x, p) == IndexColumn(s, x, p)
  {
    RunResolves(cols, alters);
    EveryRunKeepsNames(cols, alters);
    var s := Run(cols, alters).0;
    hide Run, Step;
    if Step(s, a).Some? && a != DropIndex(x) && x in s.indexes && p < |s.indexes[x]| {
      StepKeepsIndex(s, a, x, p);
    }
  }

  lemma {:induction false} RunResolves(cols: Columns, alters: seq<Alter>)
    requires DistinctNames(cols)
    ensures IndexesResolve(Run(cols, alters).0)
    decreases |alters|
  {
    hide Step;
    if alters != [] {
      var n := |alters| - 1;
      RunResolves(cols, alters[..n]);
      EveryRunKeepsNames(cols, alters[..n]);
      var s := Run(cols, alters[..n]).0;
      if Step(s, alters[n]).Some? {
        StepResolves(s, alters[n]);
      }
    }
  }
}
