/** The full-range key bounds that scans of a whole table or index column use, and which keys they cover. */
module Bounds {
  import opened Values
  import opened Schemas

  const I64_MIN: int := -0x8000_0000_0000_0000
  const I64_MAX: int := 0x7fff_ffff_ffff_ffff
  const DATE_MIN: int := -95746129
  const DATE_MAX: int := 95745399
  const SECOND: int := 2_000_000_000
  const DAY: int := 86400 * SECOND
  const TIME_MAX: int := 86399 * SECOND + 999_999_999
  const DECIMAL_MAX: int := 79228162514264337593543950335_0000000000000000000000000000
  const LAST_CHAR: char := '\U{10FFFF}'

  function KeyBounds(t: DataType): (DbKey, DbKey)
  {
    match t
    case TInt => (KInt(I64_MIN), KInt(I64_MAX))
    case TBool => (KBool(false), KBool(true))
    case TDate => (KDate(DATE_MIN), KDate(DATE_MAX))
    case TTime => (KTime(0), KTime(TIME_MAX))
    case TTimestamp => (KTimestamp(DATE_MIN * DAY), KTimestamp(DATE_MAX * DAY + TIME_MAX))
    case TDecimal => (KDecimal(-DECIMAL_MAX), KDecimal(DECIMAL_MAX))
    case _ => (KStr(""), KStr([LAST_CHAR]))
  }

  /** The keys that values of a type give: 64-bit integers, 96-bit decimals, calendar dates, any string. */
  predicate KeyOfType(k: DbKey, t: DataType)
  {
    match t
    case TInt => k.KInt? && I64_MIN <= k.i <= I64_MAX
    case TBool => k.KBool?
    case TDate => k.KDate? && DATE_MIN <= k.days <= DATE_MAX
    case TTime => k.KTime? && 0 <= k.nanos < DAY
    case TTimestamp => k.KTimestamp? && DATE_MIN * DAY <= k.instant < (DATE_MAX + 1) * DAY
    case TDecimal => k.KDecimal? && -DECIMAL_MAX <= k.dec <= DECIMAL_MAX
    case TString => k.KStr?
    case _ => false
  }

  predicate WithinType(k: DbKey, t: DataType)
  {
    InRange(k, KeyBounds(t).0, KeyBounds(t).1)
  }

  /**
   The bounds cover every key of the type, except a time in the last leap second of the (last) day
   and a string that goes on after a leading U+10FFFF.
   */
  lemma WithinTypeExactly(k: DbKey, t: DataType)
    requires KeyOfType(k, t)
    ensures WithinType(k, t) <==>
      match k
      case KTime(nanos) => nanos <= TIME_MAX
      case KTimestamp(instant) => instant <= DATE_MAX * DAY + TIME_MAX
      case KStr(s) => s == [] || s[0] != LAST_CHAR || |s| == 1
      case _ => true
  {
    if k.KStr? && k.s != [] {
      var rest := k.s[1..];
      assert StrLeq(k.s, [LAST_CHAR]) == if k.s[0] == LAST_CHAR then StrLeq(rest, [LAST_CHAR][1..]) else k.s[0] < LAST_CHAR;
      assert [LAST_CHAR][1..] == [];
      assert StrLeq(rest, []) <==> rest == [];
    }
  }

  // ---------- Primary keys ----------

  /** The primary-key columns, in column order. */
  function PkColumns(cols: Columns): (r: seq<nat>)
    ensures forall i :: 0 <= i < |r| ==> r[i] < |cols|
  {
    if cols == [] then []
    else
      var n := |cols| - 1;
      var front := PkColumns(cols[..n]);
      if cols[n].isPrimaryKey then front + [n] else front
  }

  /** Exactly the primary-key columns, each once, in column order. */
  lemma {:induction false} PkColumnsExact(cols: Columns)
    ensures forall c: nat :: c in PkColumns(cols) <==> c < |cols| && cols[c].isPrimaryKey
    ensures forall i, j :: 0 <= i < j < |PkColumns(cols)| ==> PkColumns(cols)[i] < PkColumns(cols)[j]
  {
    if cols != [] {
      PkColumnsExact(cols[..|cols| - 1]);
    }
  }

  function Mins(cols: Columns, at: seq<nat>): (r: seq<DbKey>)
    requires forall i :: 0 <= i < |at| ==> at[i] < |cols|
  {
    seq(|at|, i requires 0 <= i < |at| => KeyBounds(cols[at[i]].dataType).0)
  }

  function Maxs(cols: Columns, at: seq<nat>): (r: seq<DbKey>)
    requires forall i :: 0 <= i < |at| ==> at[i] < |cols|
  {
    seq(|at|, i requires 0 <= i < |at| => KeyBounds(cols[at[i]].dataType).1)
  }

  /** The bounds of the primary key; None without a primary key. */
  function PrimaryKeyBounds(cols: Columns): Option<(DbKey, DbKey)>
  {
    var at := PkColumns(cols);
    if at == [] then None
    else if |at| == 1 then Some(KeyBounds(cols[at[0]].dataType))
    else Some((KComposite(Mins(cols, at)), KComposite(Maxs(cols, at))))
  }

  /** There are bounds exactly when some column belongs to the primary key. */
  lemma BoundsNeedKey(cols: Columns)
    ensures PrimaryKeyBounds(cols).Some? <==> exists c :: 0 <= c < |cols| && cols[c].isPrimaryKey
  {
    PkColumnsExact(cols);
    if PkColumns(cols) != [] {
      assert PkColumns(cols)[0] in PkColumns(cols);
    }
  }

  lemma {:induction false} PointwiseLeq(p: seq<DbKey>, q: seq<DbKey>)
    requires |p| == |q| && forall i :: 0 <= i < |p| ==> Leq(p[i], q[i])
    ensures SeqLeq(p, q)
  {
    if p != [] {
      PointwiseLeq(p[1..], q[1..]);
    }
  }

  /** A key whose every part lies within its column's bounds lies within the primary key bounds. */
  lemma PartsWithinBounds(cols: Columns, parts: seq<DbKey>)
    requires |parts| == |PkColumns(cols)| && parts != []
    requires forall i :: 0 <= i < |parts| ==> WithinType(parts[i], cols[PkColumns(cols)[i]].dataType)
    ensures PrimaryKeyBounds(cols).Some?
    ensures InRange(if |parts| == 1 then parts[0] else KComposite(parts), PrimaryKeyBounds(cols).value.0, PrimaryKeyBounds(cols).value.1)
  {
    var at := PkColumns(cols);
    PointwiseLeq(Mins(cols, at), parts);
    PointwiseLeq(parts, Maxs(cols, at));
  }
}
