/** Secondary indexes: the entries a row contributes, and how a set of row changes moves an index. */
module Indexes {
  import opened Values

  /** An index over resolved column positions. A tokenizer is a fixed function of the text. */
  datatype IndexDef =
    | BTree(columns: seq<nat>)
    | FullText(column: nat, tokenize: string -> seq<string>)

  /** What an engine stores under a key: a (sub-)row, nothing, or token positions. */
  datatype Stored = SubRow(row: Row) | Unit | Positions(at: seq<nat>)

  type Table = map<DbKey, Row>
  type Engine = map<DbKey, Stored>

  /** Row changes by primary key; None is a deletion. */
  type Changes = map<DbKey, Option<Row>>

  /** The net effect of one engine batch. */
  type Delta = map<DbKey, Option<Stored>>

  function Lookup<K, V>(m: map<K, V>, k: K): Option<V>
  {
    if k in m then Some(m[k]) else None
  }

  /** The map after the changes d, where None removes a key. */
  function Patch<K(!new), V>(m: map<K, V>, d: map<K, Option<V>>): (r: map<K, V>)
    ensures forall k :: Lookup(r, k) == if k in d then d[k] else Lookup(m, k)
  {
    map k | k in m.Keys + d.Keys && (k in d ==> d[k].Some?) :: if k in d then d[k].value else m[k]
  }

  /** The rows that the changes overwrite or delete. */
  function Preimages(t: Table, ch: Changes): Table
  {
    map k | k in ch && k in t :: t[k]
  }

  function ValueAt(row: Row, c: nat): DbValue
  {
    if c < |row| then row[c] else Null
  }

  // ---------- Entries of one row ----------

  /** The keys of the indexable columns; columns that are null or not indexable are skipped. */
  function KeyParts(columns: seq<nat>, row: Row): (ks: seq<DbKey>)
    ensures |ks| <= |columns|
  {
    if columns == [] then []
    else
      var front := KeyParts(columns[..|columns| - 1], row);
      var k := ValueToKey(ValueAt(row, columns[|columns| - 1]));
      if k.Some? then front + [k.value] else front
  }

  /** The ascending positions of a token among the first n tokens. */
  function PositionsTo(tokens: seq<string>, token: string, n: nat): seq<nat>
    requires n <= |tokens|
  {
    if n == 0 then []
    else
      var front := PositionsTo(tokens, token, n - 1);
      if tokens[n - 1] == token then front + [n - 1] else front
  }

  function PositionsOf(tokens: seq<string>, token: string): seq<nat>
  {
    PositionsTo(tokens, token, |tokens|)
  }

  function TokenKey(token: string, pk: DbKey): DbKey
  {
    KComposite([KStr(token), pk])
  }

  function TokensOf(def: IndexDef, row: Row): seq<string>
    requires def.FullText?
  {
    var v := ValueAt(row, def.column);
    if v.Str? then def.tokenize(v.s) else []
  }

  function PositionMap(tokens: seq<string>): map<string, seq<nat>>
  {
    map t | t in tokens :: PositionsOf(tokens, t)
  }

  function TokenCells(positions: map<string, seq<nat>>, pk: DbKey): Engine
  {
    map t | t in positions :: TokenKey(t, pk) := Positions(positions[t])
  }

  function Entries(def: IndexDef, pk: DbKey, row: Row): Engine
  {
    match def
    case BTree(columns) =>
      var ks := KeyParts(columns, row);
      if |ks| == |columns| then map[KComposite(ks + [pk]) := Unit] else map[]
    case FullText(_, _) =>
      TokenCells(PositionMap(TokensOf(def, row)), pk)
  }

  /** The primary key at the end of an index key. */
  function PkOf(x: DbKey): DbKey
  {
    if x.KComposite? && x.parts != [] then x.parts[|x.parts| - 1] else x
  }

  lemma EntryPk(def: IndexDef, pk: DbKey, row: Row)
    ensures forall x :: x in Entries(def, pk, row) ==> PkOf(x) == pk
  {
  }

  // ---------- The index of a table ----------

  /** What the row found under the key's own primary key contributes at index key x. */
  function EntryAt(def: IndexDef, row: Option<Row>, x: DbKey): Option<Stored>
  {
    if row.Some? then Lookup(Entries(def, PkOf(x), row.value), x) else None
  }

  function Keys(def: IndexDef, t: Table): (xs: set<DbKey>)
    ensures forall x :: x in xs <==> EntryAt(def, Lookup(t, PkOf(x)), x).Some?
  {
    var xs := set pk, x | pk in t && x in Entries(def, pk, t[pk]) :: x;
    assert forall x :: x in xs <==> EntryAt(def, Lookup(t, PkOf(x)), x).Some? by {
      forall pk, row { EntryPk(def, pk, row); }
    }
    xs
  }

  /** The index of a whole table: every entry of every row, and nothing else. */
  function Image(def: IndexDef, t: Table): (e: Engine)
    ensures forall x :: Lookup(e, x) == EntryAt(def, Lookup(t, PkOf(x)), x)
  {
    map x | x in Keys(def, t) :: EntryAt(def, Lookup(t, PkOf(x)), x).value
  }

  // ---------- Maintenance ----------

  /** The batch entries for one row change: drop the old row's entries, then put the new row's. */
  function EntryDelta(def: IndexDef, pk: DbKey, change: Option<Row>, prior: Option<Row>): Delta
  {
    var drops := if prior.Some? then Entries(def, pk, prior.value).Keys else {};
    var puts := if change.Some? then Entries(def, pk, change.value) else map[];
    (map x | x in drops :: None) + (map x | x in puts :: Some(puts[x]))
  }

  lemma EntryDeltaAt(def: IndexDef, change: Option<Row>, prior: Option<Row>, x: DbKey)
    ensures var d := EntryDelta(def, PkOf(x), change, prior);
            && (x in d <==> EntryAt(def, prior, x).Some? || EntryAt(def, change, x).Some?)
            && (x in d ==> d[x] == EntryAt(def, change, x))
  {
  }

  /** The rows a set of changes writes. */
  function Puts(ch: Changes): Table
  {
    map k | k in ch && ch[k].Some? :: ch[k].value
  }

  function Touched(def: IndexDef, ch: Changes, prior: Table): (xs: set<DbKey>)
    ensures forall x :: x in xs <==>
      PkOf(x) in ch && (EntryAt(def, Lookup(prior, PkOf(x)), x).Some? || EntryAt(def, ch[PkOf(x)], x).Some?)
  {
    (set x | x in Keys(def, prior) && PkOf(x) in ch) + Keys(def, Puts(ch))
  }

  /** The effect of a whole write batch on an index, given the old rows it was handed. */
  function IndexDelta(def: IndexDef, ch: Changes, prior: Table): (d: Delta)
    ensures forall x :: x in d <==>
      PkOf(x) in ch && (EntryAt(def, Lookup(prior, PkOf(x)), x).Some? || EntryAt(def, ch[PkOf(x)], x).Some?)
    ensures forall x :: x in d ==> d[x] == EntryAt(def, ch[PkOf(x)], x)
  {
    map x | x in Touched(def, ch, prior) :: EntryAt(def, ch[PkOf(x)], x)
  }

  /** With true pre-images, the batch moves the index of a table to the index of the changed table. */
  lemma IndexStep(def: IndexDef, t: Table, ch: Changes, prior: Table)
    requires prior == Preimages(t, ch)
    ensures Patch(Image(def, t), IndexDelta(def, ch, prior)) == Image(def, Patch(t, ch))
  {
    forall x
      ensures Lookup(Patch(Image(def, t), IndexDelta(def, ch, prior)), x) == Lookup(Image(def, Patch(t, ch)), x)
    {
      IndexStepAt(def, t, ch, prior, x);
    }
    MapsEqual(Patch(Image(def, t), IndexDelta(def, ch, prior)), Image(def, Patch(t, ch)));
  }

  lemma IndexStepAt(def: IndexDef, t: Table, ch: Changes, prior: Table, x: DbKey)
    requires prior == Preimages(t, ch)
    ensures Lookup(Patch(Image(def, t), IndexDelta(def, ch, prior)), x) == Lookup(Image(def, Patch(t, ch)), x)
  {
    var pk := PkOf(x);
    if pk in ch {
      assert Lookup(prior, pk) == Lookup(t, pk);
    }
  }

  lemma MapsEqual<K(!new), V>(a: map<K, V>, b: map<K, V>)
    requires forall k :: Lookup(a, k) == Lookup(b, k)
    ensures a == b
  {
    forall k ensures k in a <==> k in b {
      assert Lookup(a, k) == Lookup(b, k);
    }
    forall k | k in a ensures a[k] == b[k] {
      assert Lookup(a, k) == Lookup(b, k);
    }
  }
}
