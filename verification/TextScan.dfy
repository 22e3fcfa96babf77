/** Full-text scans under a transaction's write buffer, and token intersection for LIKE. */
module TextScan {
  import opened Values
  import opened Schemas
  import opened Indexes
  import opened Ordered
  import opened Bounds
  import opened Queries
  import opened TransactionReads
  import opened IndexScans
  import FullText

  /** A left-deep conjunction of tokens; None for no tokens. */
  function AndOfTokens(tokens: seq<string>): (q: Option<Query>)
    ensures q.None? <==> tokens == []
    ensures q.Some? ==> NonEmptyPhrases(q.value)
  {
    if tokens == [] then None
    else
      var last := Token(tokens[|tokens| - 1]);
      var front := AndOfTokens(tokens[..|tokens| - 1]);
      if front.None? then Some(last) else Some(And(front.value, last))
  }

  method BuildAnd(tokens: seq<string>) returns (q: Option<Query>)
    ensures q == AndOfTokens(tokens)
  {
    if tokens == [] {
      return None;
    }
    var query := Token(tokens[0]);
    assert tokens[..1][..0] == [];
    for n := 1 to |tokens|
      invariant Some(query) == AndOfTokens(tokens[..n])
    {
      assert tokens[..n + 1][..n] == tokens[..n];
      query := And(query, Token(tokens[n]));
    }
    assert tokens[..|tokens|] == tokens;
    q := Some(query);
  }

  /** The conjunction holds of a row exactly when the row's text has every token. */
  lemma {:induction false} AndOfTokensMeans(def: IndexDef, tokens: seq<string>, row: Row)
    requires def.FullText? && tokens != []
    ensures RowSatisfies(def, AndOfTokens(tokens).value, row) <==> forall i :: 0 <= i < |tokens| ==> tokens[i] in TokensOf(def, row)
  {
    if |tokens| > 1 {
      AndOfTokensMeans(def, tokens[..|tokens| - 1], row);
    }
  }

  function RowTest(def: IndexDef, q: Query): Row -> bool
    requires def.FullText?
  {
    row => RowSatisfies(def, q, row)
  }

  method SortPks(keys: set<DbKey>) returns (pks: seq<DbKey>)
    ensures pks == Sorted(keys) && NoDuplicates(pks) && Elements(pks) == keys
  {
    pks := [];
    var todo := keys;
    while todo != {}
      invariant todo <= keys && Ascending(pks)
      invariant forall i, k :: 0 <= i < |pks| && k in todo ==> Less(pks[i], k)
      invariant forall k :: k in keys <==> k in todo || k in pks
      decreases todo
    {
      var k := Least(todo);
      pks := pks + [k];
      todo := todo - {k};
    }
    AscendingUnique(pks, Sorted(keys));
  }

  /** Adds every scanned range to what validation will look at. */
  method TrackRanges(tx: Transaction, space: string, ranges: seq<Interval>)
    modifies tx`scanRanges
    ensures tx.level == SnapshotIsolation ==> forall r :: r in ranges ==> r in tx.RangesOf(space)
  {
    for n := 0 to |ranges|
      invariant tx.level == SnapshotIsolation ==> forall i :: 0 <= i < n ==> ranges[i] in tx.RangesOf(space)
    {
      tx.TrackRange(space, ranges[n].0, ranges[n].1);
    }
  }

  /** The scan of a parsed query: the rows the index finds, plus buffered rows that satisfy it. */
  method FullTextScan(tx: Transaction, table: string, index: string, cols: Columns, def: IndexDef, stored: Table,
      e: Engine, q: Query)
    returns (rows: Option<seq<(DbKey, Row)>>)
    requires def.FullText? && e == Image(def, stored)
    modifies tx`readSet, tx`scanRanges
    ensures rows.None? <==> PrimaryKeyBounds(cols).None?
    ensures rows.Some? ==>
      var (lo, hi) := PrimaryKeyBounds(cols).value;
      && NoDuplicates(KeysOf(rows.value))
      && (exists pks, n: nat :: LeadUpTo(pks, rows.value, n) && forall pk :: pk in pks <==> FullText.IndexSatisfies(e, q, pk, lo, hi))
      && (forall pk, row :: (pk, row) in rows.value <==> Returned(def, stored, tx.Buffered(table), q, lo, hi, pk, row))
      && (tx.level == SnapshotIsolation || tx.level == RepeatableRead ==> forall pk :: FullText.IndexSatisfies(e, q, pk, lo, hi) && pk !in tx.Buffered(table) ==> pk in tx.ReadsOf(table))
      && (tx.level == SnapshotIsolation ==>
           forall r :: r in FullText.ScannedRanges(q, lo, hi) ==> r in tx.RangesOf(table + ".index." + index))
  {
    hide Image, FullText.IndexSatisfies, RowSatisfies;
    var bounds := PrimaryKeyBounds(cols);
    if bounds.None? {
      return None;
    }
    var (lo, hi) := bounds.value;
    FullText.ImageInverted(def, stored);
    var hits, ranges := FullText.EvalQuery(e, q, lo, hi);
    TrackRanges(tx, table + ".index." + index, ranges);
    var pks := SortPks(hits);
    var found := Gather(tx, table, stored, pks, RowTest(def, q));
    rows := Some(found);
  }

  ghost predicate Returned(def: IndexDef, stored: Table, buf: Changes, q: Query, lo: DbKey, hi: DbKey, pk: DbKey,
      row: Row)
    requires def.FullText?
  {
    && Lookup(Patch(stored, buf), pk) == Some(row)
    && (FullText.IndexSatisfies(Image(def, stored), q, pk, lo, hi) || (pk in buf && RowSatisfies(def, q, row)))
  }

  /** With the query re-checked on every row, the scan equals filtering the whole overlaid table
      exactly when every unbuffered stored row that satisfies the query has its key in bounds. */
  lemma RecheckMakesExact(def: IndexDef, stored: Table, buf: Changes, q: Query, lo: DbKey, hi: DbKey)
    requires def.FullText? && NonEmptyPhrases(q)
    ensures (forall pk, row :: RowSatisfies(def, q, row) ==>
              (Returned(def, stored, buf, q, lo, hi, pk, row) <==> Lookup(Patch(stored, buf), pk) == Some(row)))
            <==> !exists pk :: OutOfBounds(def, stored, buf, q, lo, hi, pk)
  {
    hide RowSatisfies, Returned, OutOfBounds, Patch, NonEmptyPhrases;
    if pk :| OutOfBounds(def, stored, buf, q, lo, hi, pk) {
      var row := StoredRow(def, stored, buf, q, lo, hi, pk);
      ReturnedIff(def, stored, buf, q, lo, hi, pk, row);
    } else {
      forall pk, row | RowSatisfies(def, q, row)
        ensures Returned(def, stored, buf, q, lo, hi, pk, row) <==> Lookup(Patch(stored, buf), pk) == Some(row)
      {
        ReturnedIff(def, stored, buf, q, lo, hi, pk, row);
      }
    }
  }

  /** An unbuffered stored row that satisfies the query under a key outside the bounds. */
  ghost predicate OutOfBounds(def: IndexDef, stored: Table, buf: Changes, q: Query, lo: DbKey, hi: DbKey, pk: DbKey)
    requires def.FullText?
  {
    pk in stored && pk !in buf && RowSatisfies(def, q, stored[pk]) && !InRange(pk, lo, hi)
  }

  lemma StoredRow(def: IndexDef, stored: Table, buf: Changes, q: Query, lo: DbKey, hi: DbKey, pk: DbKey)
    returns (row: Row)
    requires def.FullText? && OutOfBounds(def, stored, buf, q, lo, hi, pk)
    ensures RowSatisfies(def, q, row) && Lookup(Patch(stored, buf), pk) == Some(row)
  {
    hide RowSatisfies, InRange;
    row := stored[pk];
    assert Lookup(Patch(stored, buf), pk) == Some(row);
  }

  lemma ReturnedIff(def: IndexDef, stored: Table, buf: Changes, q: Query, lo: DbKey, hi: DbKey, pk: DbKey, row: Row)
    requires def.FullText? && NonEmptyPhrases(q) && RowSatisfies(def, q, row)
    ensures Returned(def, stored, buf, q, lo, hi, pk, row) <==>
            Lookup(Patch(stored, buf), pk) == Some(row) && !OutOfBounds(def, stored, buf, q, lo, hi, pk)
  {
    hide Image, RowSatisfies, InRange, FullText.IndexSatisfies, NonEmptyPhrases;
    FullText.IndexAgrees(def, stored, q, pk, lo, hi);
  }

  /** Before the recheck, a row that does not satisfy the query is one this transaction has overwritten. */
  lemma ExtrasAreOverwritten(def: IndexDef, stored: Table, buf: Changes, q: Query, lo: DbKey, hi: DbKey, pk: DbKey,
      row: Row)
    requires def.FullText? && NonEmptyPhrases(q)
    requires Returned(def, stored, buf, q, lo, hi, pk, row) && !RowSatisfies(def, q, row)
    ensures pk in buf && pk in stored && RowSatisfies(def, q, stored[pk])
  {
    hide Image, RowSatisfies;
    FullText.IndexAgrees(def, stored, q, pk, lo, hi);
  }
}
