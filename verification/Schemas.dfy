/** Table schemas: columns with stable ids, and rows cut into locality groups and put together again. */
module Schemas {
  import opened Values

  datatype DataType = TInt | TFloat | TString | TBytes | TNull | TBool | TDate | TTime | TTimestamp | TDecimal

  /** A column without an explicit locality group belongs to the group named "". */
  datatype Column = Column(
    id: nat,
    name: string,
    dataType: DataType,
    isPrimaryKey: bool,
    isNullable: bool,
    group: string,
    default: Option<DbValue>)

  type Columns = seq<Column>

  function DefaultOf(c: Column): DbValue
  {
    if c.default.Some? then c.default.value else Null
  }

  function DefaultRow(cols: Columns): Row
  {
    seq(|cols|, i requires 0 <= i < |cols| => DefaultOf(cols[i]))
  }

  function Groups(cols: Columns): set<string>
  {
    if cols == [] then {""} else set c | c in cols :: c.group
  }

  predicate DistinctNames(cols: Columns)
  {
    forall i, j :: 0 <= i < j < |cols| ==> cols[i].name != cols[j].name
  }

  /** The position of the first column with the given name. */
  function ColumnIndex(cols: Columns, name: string): (r: Option<nat>)
    ensures r.Some? ==> r.value < |cols| && cols[r.value].name == name
    ensures r.Some? ==> forall j :: 0 <= j < r.value ==> cols[j].name != name
    ensures r.None? ==> forall j :: 0 <= j < |cols| ==> cols[j].name != name
  {
    if cols == [] then None
    else if cols[0].name == name then Some(0)
    else
      var r := ColumnIndex(cols[1..], name);
      if r.Some? then Some(r.value + 1) else None
  }

  function GroupColumns(cols: Columns, g: string): Columns
  {
    if cols == [] then []
    else
      var front := GroupColumns(cols[..|cols| - 1], g);
      if cols[|cols| - 1].group == g then front + [cols[|cols| - 1]] else front
  }

  /** The place of column i inside the sub-rows of its own group. */
  function RelativeIndex(cols: Columns, i: nat): nat
    requires i < |cols|
  {
    var r := ColumnIndex(GroupColumns(cols, cols[i].group), cols[i].name);
    if r.Some? then r.value else 0
  }

  /** The sub-row of group g built from the first n columns. */
  function SplitTo(cols: Columns, row: Row, g: string, n: nat): Row
    requires |row| == |cols| && n <= |cols|
  {
    if n == 0 then []
    else
      var front := SplitTo(cols, row, g, n - 1);
      var idx := ColumnIndex(cols, cols[n - 1].name);
      if cols[n - 1].group == g && idx.Some? then front + [row[idx.value]] else front
  }

  function Split(cols: Columns, row: Row, g: string): Row
    requires |row| == |cols|
  {
    SplitTo(cols, row, g, |cols|)
  }

  /** What column i of a merged row is, given the sub-rows that were found. */
  function MergedValue(cols: Columns, parts: map<string, Option<Row>>, i: nat): DbValue
    requires i < |cols|
  {
    var g := cols[i].group;
    var r := RelativeIndex(cols, i);
    if g in parts && parts[g].Some? && r < |parts[g].value| then parts[g].value[r]
    else DefaultOf(cols[i])
  }

  function Merge(cols: Columns, parts: map<string, Option<Row>>): Row
  {
    seq(|cols|, i requires 0 <= i < |cols| => MergedValue(cols, parts, i))
  }

  // ---------- Splitting and merging is the identity ----------

  lemma {:induction false} GroupColumnsAt(cols: Columns, g: string, i: nat)
    requires i < |cols| && cols[i].group == g
    ensures |GroupColumns(cols[..i], g)| < |GroupColumns(cols, g)|
    ensures GroupColumns(cols, g)[|GroupColumns(cols[..i], g)|] == cols[i]
    ensures GroupColumns(cols[..i], g) <= GroupColumns(cols, g)
  {
    var last := |cols| - 1;
    if i < last {
      GroupColumnsAt(cols[..last], g, i);
      assert cols[..last][..i] == cols[..i];
    }
  }

  lemma {:induction false} GroupColumnsFrom(cols: Columns, g: string)
    ensures forall c :: c in GroupColumns(cols, g) ==> c in cols
  {
    if cols != [] {
      GroupColumnsFrom(cols[..|cols| - 1], g);
    }
  }

  lemma RelativeIndexCounts(cols: Columns, i: nat)
    requires DistinctNames(cols) && i < |cols|
    ensures RelativeIndex(cols, i) == |GroupColumns(cols[..i], cols[i].group)|
  {
    var g := cols[i].group;
    var before := GroupColumns(cols[..i], g);
    GroupColumnsAt(cols, g, i);
    GroupColumnsFrom(cols[..i], g);
    var r := ColumnIndex(GroupColumns(cols, g), cols[i].name);
    assert GroupColumns(cols, g)[|before|].name == cols[i].name;
    forall j | 0 <= j < |before| ensures GroupColumns(cols, g)[j].name != cols[i].name {
      assert before[j] in cols[..i];
    }
  }

  lemma {:induction false} SplitLength(cols: Columns, row: Row, g: string, n: nat)
    requires |row| == |cols| && n <= |cols|
    ensures |SplitTo(cols, row, g, n)| == |GroupColumns(cols[..n], g)|
  {
    if n > 0 {
      SplitLength(cols, row, g, n - 1);
      assert cols[..n][..n - 1] == cols[..n - 1];
      assert cols[..n][n - 1] == cols[n - 1];
    }
  }

  lemma {:induction false} SplitAt(cols: Columns, row: Row, g: string, n: nat, i: nat)
    requires |row| == |cols| && DistinctNames(cols) && i < n <= |cols| && cols[i].group == g
    ensures |GroupColumns(cols[..i], g)| < |SplitTo(cols, row, g, n)|
    ensures SplitTo(cols, row, g, n)[|GroupColumns(cols[..i], g)|] == row[i]
  {
    if i < n - 1 {
      SplitAt(cols, row, g, n - 1, i);
    } else {
      SplitLength(cols, row, g, i);
      assert ColumnIndex(cols, cols[i].name) == Some(i);
    }
  }

  function SplitAll(cols: Columns, row: Row): map<string, Option<Row>>
    requires |row| == |cols|
  {
    map g | g in Groups(cols) :: Some(Split(cols, row, g))
  }

  /** Cutting a row over all its groups and merging the pieces gives the row back. */
  lemma MergeSplit(cols: Columns, row: Row)
    requires |row| == |cols| && DistinctNames(cols)
    ensures Merge(cols, SplitAll(cols, row)) == row
  {
    forall i | 0 <= i < |cols|
      ensures MergedValue(cols, SplitAll(cols, row), i) == row[i]
    {
      assert cols[i] in cols;
      RelativeIndexCounts(cols, i);
      SplitAt(cols, row, cols[i].group, |cols|, i);
    }
  }

  /** The earlier columns of the same group. */
  ghost function Before(cols: Columns, g: string, n: nat): (r: set<int>)
    requires n <= |cols|
    ensures forall j :: j in r <==> 0 <= j < n && cols[j].group == g
  {
    set j | 0 <= j < n && cols[j].group == g
  }

  lemma {:induction false} GroupCounts(cols: Columns, g: string, n: nat)
    requires n <= |cols|
    ensures |GroupColumns(cols[..n], g)| == |Before(cols, g, n)|
  {
    if n == 0 {
      assert Before(cols, g, 0) == {};
    } else {
      GroupCounts(cols, g, n - 1);
      assert cols[..n][..n - 1] == cols[..n - 1];
      var few := Before(cols, g, n - 1);
      assert Before(cols, g, n) == if cols[n - 1].group == g then few + {n - 1} else few;
    }
  }

  /** The sub-row of a group holds the value of every column of the group, at the place that counts
      the earlier columns of the group, and nothing else. */
  lemma SplitHolds(cols: Columns, row: Row, g: string, i: nat)
    requires |row| == |cols| && DistinctNames(cols) && i < |cols|
    ensures |Split(cols, row, g)| == |Before(cols, g, |cols|)|
    ensures cols[i].group == g ==>
      var k := |Before(cols, g, i)|;
      k < |Split(cols, row, g)| && Split(cols, row, g)[k] == row[i]
  {
    SplitLength(cols, row, g, |cols|);
    GroupCounts(cols, g, |cols|);
    GroupCounts(cols, g, i);
    if cols[i].group == g {
      SplitAt(cols, row, g, |cols|, i);
    }
  }

  /** Merging reads each column at that place, and its default where the sub-row is missing or too short. */
  lemma MergeReads(cols: Columns, parts: map<string, Option<Row>>, i: nat)
    requires DistinctNames(cols) && i < |cols|
    ensures var g, k := cols[i].group, |Before(cols, cols[i].group, i)|;
      |Merge(cols, parts)| == |cols| && Merge(cols, parts)[i] ==
        if g !in parts || parts[g].None? || |parts[g].value| <= k then DefaultOf(cols[i])
        else parts[g].value[k]
  {
    RelativeIndexCounts(cols, i);
    GroupCounts(cols, cols[i].group, i);
  }

  // ---------- The loops that cut and merge ----------

  method SplitRow(cols: Columns, row: Row, g: string) returns (sub: Row)
    requires |row| == |cols|
    ensures sub == Split(cols, row, g)
  {
    sub := [];
    for n := 0 to |cols|
      invariant sub == SplitTo(cols, row, g, n)
    {
      if cols[n].group == g {
        var idx := ColumnIndex(cols, cols[n].name);
        if idx.Some? {
          sub := sub + [row[idx.value]];
        }
      }
    }
  }

  method MergeRows(cols: Columns, parts: map<string, Option<Row>>) returns (full: Row)
    ensures full == Merge(cols, parts)
  {
    full := DefaultRow(cols);
    for i := 0 to |cols|
      invariant |full| == |cols|
      invariant forall j :: 0 <= j < i ==> full[j] == MergedValue(cols, parts, j)
      invariant forall j :: i <= j < |cols| ==> full[j] == DefaultOf(cols[j])
    {
      var g := cols[i].group;
      if g in parts && parts[g].Some? {
        var r := RelativeIndex(cols, i);
        if r < |parts[g].value| {
          full := full[i := parts[g].value[r]];
        }
      }
    }
  }
}
