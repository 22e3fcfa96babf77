/** The total order that external sorting uses: values by type, then by value, NaN last. */
module SortOrder {
  import opened Values

  datatype Ordering = Before | Same | After

  function Reverse(o: Ordering): Ordering
  {
    match o
    case Before => After
    case Same => Same
    case After => Before
  }

  function CompareInt(a: int, b: int): Ordering
  {
    if a < b then Before else if a == b then Same else After
  }

  // ---------- IEEE 754 doubles, by bit pattern ----------

  const SIGN_BIT: nat := 0x8000_0000_0000_0000
  const INFINITY_BITS: nat := 0x7ff0_0000_0000_0000

  function Magnitude(bits: nat): nat
  {
    if bits >= SIGN_BIT then bits - SIGN_BIT else bits
  }

  predicate IsNaN(bits: nat)
  {
    Magnitude(bits) > INFINITY_BITS
  }

  /** Sign and magnitude as one integer: ordered like the doubles, with both zeros at 0. */
  function Signed(bits: nat): int
  {
    if bits >= SIGN_BIT then 0 - Magnitude(bits) else Magnitude(bits)
  }

  /** The comparison of IEEE 754: undefined when an operand is NaN. */
  function PartialCompare(a: nat, b: nat): Option<Ordering>
  {
    if IsNaN(a) || IsNaN(b) then None else Some(CompareInt(Signed(a), Signed(b)))
  }

  function TotalFloat(a: nat, b: nat): Ordering
  {
    match PartialCompare(a, b)
    case Some(o) => o
    case None => if IsNaN(a) && IsNaN(b) then Same else if IsNaN(a) then After else Before
  }

  /** Equality of stored floats: every NaN equals every NaN, and otherwise numbers compare. */
  predicate FloatEq(a: nat, b: nat)
  {
    (IsNaN(a) && IsNaN(b)) || PartialCompare(a, b) == Some(Same)
  }

  // ---------- Sequences ----------

  /** Lexicographic order of bytes or of code points given as integers. */
  function CompareInts(a: seq<int>, b: seq<int>): Ordering
  {
    if a == [] && b == [] then Same
    else if a == [] then Before
    else if b == [] then After
    else
      var o := CompareInt(a[0], b[0]);
      if o == Same then CompareInts(a[1..], b[1..]) else o
  }

  function CodePoints(s: string): seq<int>
  {
    seq(|s|, i requires 0 <= i < |s| => s[i] as int)
  }

  function BoolRank(b: bool): int
  {
    if b then 1 else 0
  }

  function TypeRank(v: DbValue): int
  {
    match v
    case Null => 0
    case Bool(_) => 1
    case Int(_) => 2
    case Float(_) => 3
    case Str(_) => 4
    case Bytes(_) => 5
    case Date(_) => 6
    case Time(_) => 7
    case Timestamp(_) => 8
    case Decimal(_) => 9
  }

  function TotalCompare(l: DbValue, r: DbValue): Ordering
  {
    if TypeRank(l) != TypeRank(r) then CompareInt(TypeRank(l), TypeRank(r))
    else match l
      case Null => Same
      case Bool(a) => CompareInt(BoolRank(a), BoolRank(r.b))
      case Int(a) => CompareInt(a, r.i)
      case Float(a) => TotalFloat(a, r.bits)
      case Str(a) => CompareInts(CodePoints(a), CodePoints(r.s))
      case Bytes(a) => CompareInts(a, r.bytes)
      case Date(a) => CompareInt(a, r.days)
      case Time(a) => CompareInt(a, r.nanos)
      case Timestamp(a) => CompareInt(a, r.instant)
      case Decimal(a) => CompareInt(a, r.dec)
  }

  /** The equality of values that hashing uses. */
  predicate ValueEq(l: DbValue, r: DbValue)
  {
    if l.Float? && r.Float? then FloatEq(l.bits, r.bits) else l == r
  }

  /** Sort keys compare column by column, each in its own direction. */
  function CompareFrom(a: Row, b: Row, ascending: seq<bool>, n: nat): Ordering
    requires |a| >= |ascending| && |b| >= |ascending| && n <= |ascending|
    decreases |ascending| - n
  {
    if n == |ascending| then Same
    else
      var o := TotalCompare(a[n], b[n]);
      if o != Same then (if ascending[n] then o else Reverse(o)) else CompareFrom(a, b, ascending, n + 1)
  }

  function CompareKeys(a: Row, b: Row, ascending: seq<bool>): Ordering
    requires |a| >= |ascending| && |b| >= |ascending|
  {
    CompareFrom(a, b, ascending, 0)
  }

  // ---------- It is a total preorder ----------

  lemma {:induction false} IntsReverse(a: seq<int>, b: seq<int>)
    ensures CompareInts(b, a) == Reverse(CompareInts(a, b))
    ensures CompareInts(a, b) == Same <==> a == b
  {
    if a != [] && b != [] {
      IntsReverse(a[1..], b[1..]);
      assert a == [a[0]] + a[1..] && b == [b[0]] + b[1..];
    }
  }

  lemma {:induction false} IntsTrans(a: seq<int>, b: seq<int>, c: seq<int>)
    requires CompareInts(a, b) != After && CompareInts(b, c) != After
    ensures CompareInts(a, c) != After
    ensures CompareInts(a, c) == Same ==> CompareInts(a, b) == Same && CompareInts(b, c) == Same
  {
    if a != [] && b != [] && c != [] {
      if a[0] == b[0] == c[0] {
        IntsTrans(a[1..], b[1..], c[1..]);
      }
    }
  }

  lemma CodePointsInjective(s: string, t: string)
    requires CodePoints(s) == CodePoints(t)
    ensures s == t
  {
    assert |s| == |CodePoints(s)| == |t|;
    forall i | 0 <= i < |s| ensures s[i] == t[i] {
      assert CodePoints(s)[i] as char == s[i] && CodePoints(t)[i] as char == t[i];
    }
  }

  /** Swapping the operands reverses the answer, and the answer is Same exactly for equal values. */
  lemma TotalReverse(l: DbValue, r: DbValue)
    ensures TotalCompare(r, l) == Reverse(TotalCompare(l, r))
    ensures TotalCompare(l, r) == Same <==> ValueEq(l, r)
  {
    if l.Str? && r.Str? {
      IntsReverse(CodePoints(l.s), CodePoints(r.s));
      if CodePoints(l.s) == CodePoints(r.s) {
        CodePointsInjective(l.s, r.s);
      }
    } else if l.Bytes? && r.Bytes? {
      IntsReverse(l.bytes, r.bytes);
    }
  }

  lemma TotalTrans(a: DbValue, b: DbValue, c: DbValue)
    requires TotalCompare(a, b) != After && TotalCompare(b, c) != After
    ensures TotalCompare(a, c) != After
    ensures TotalCompare(a, c) == Same ==> TotalCompare(a, b) == Same && TotalCompare(b, c) == Same
  {
    if a.Str? && b.Str? && c.Str? {
      IntsTrans(CodePoints(a.s), CodePoints(b.s), CodePoints(c.s));
    } else if a.Bytes? && b.Bytes? && c.Bytes? {
      IntsTrans(a.bytes, b.bytes, c.bytes);
    }
  }

  lemma {:induction false} KeysReverse(a: Row, b: Row, ascending: seq<bool>, n: nat)
    requires |a| >= |ascending| && |b| >= |ascending| && n <= |ascending|
    ensures CompareFrom(b, a, ascending, n) == Reverse(CompareFrom(a, b, ascending, n))
    ensures CompareFrom(a, b, ascending, n) == Same <==> forall i :: n <= i < |ascending| ==> ValueEq(a[i], b[i])
    decreases |ascending| - n
  {
    if n < |ascending| {
      TotalReverse(a[n], b[n]);
      KeysReverse(a, b, ascending, n + 1);
    }
  }

  lemma {:induction false} KeysTrans(a: Row, b: Row, c: Row, ascending: seq<bool>, n: nat)
    requires |a| >= |ascending| && |b| >= |ascending| && |c| >= |ascending| && n <= |ascending|
    requires CompareFrom(a, b, ascending, n) != After && CompareFrom(b, c, ascending, n) != After
    ensures CompareFrom(a, c, ascending, n) != After
    decreases |ascending| - n
  {
    if n < |ascending| {
      TotalReverse(a[n], b[n]);
      TotalReverse(b[n], c[n]);
      TotalReverse(a[n], c[n]);
      if ascending[n] {
        TotalTrans(a[n], b[n], c[n]);
      } else {
        TotalTrans(c[n], b[n], a[n]);
      }
      if TotalCompare(a[n], b[n]) == Same && TotalCompare(b[n], c[n]) == Same {
        SameTrans(a[n], b[n], c[n]);
        KeysTrans(a, b, c, ascending, n + 1);
      }
    }
  }

  lemma SameTrans(a: DbValue, b: DbValue, c: DbValue)
    requires TotalCompare(a, b) == Same && TotalCompare(b, c) == Same
    ensures TotalCompare(a, c) == Same
  {
    TotalReverse(a, b);
    TotalReverse(b, c);
    TotalReverse(a, c);
    TotalTrans(a, b, c);
    TotalTrans(c, b, a);
  }

  // ---------- What the order means, type by type ----------

  const FRACTION: nat := 0x10_0000_0000_0000

  function Pow2(n: nat): (p: nat)
    ensures p > 0
  {
    if n == 0 then 1 else 2 * Pow2(n - 1)
  }

  /** The size of a double in units of 2^-1074: subnormal below the first exponent, then 53 significant
      bits shifted by the exponent. Infinity comes out above every finite double. */
  function Units(magnitude: nat): nat
  {
    var e, f := magnitude / FRACTION, magnitude % FRACTION;
    if e == 0 then f else (FRACTION + f) * Pow2(e - 1)
  }

  function Number(bits: nat): int
  {
    if bits < SIGN_BIT then Units(bits) else 0 - Units(bits - SIGN_BIT)
  }

  /** a runs out first, or has the smaller element where the two first differ. */
  ghost predicate Lexicographic(a: seq<int>, b: seq<int>)
  {
    exists n :: 0 <= n <= |a| && n < |b| && a[..n] == b[..n] && (n < |a| ==> a[n] < b[n])
  }

  /** Null first, then by type; within a type by value, false before true and every NaN last. */
  ghost predicate Smaller(a: DbValue, b: DbValue)
  {
    match (a, b)
    case (Bool(x), Bool(y)) => !x && y
    case (Int(x), Int(y)) => x < y
    case (Float(x), Float(y)) => !IsNaN(x) && (IsNaN(y) || Number(x) < Number(y))
    case (Str(x), Str(y)) => Lexicographic(CodePoints(x), CodePoints(y))
    case (Bytes(x), Bytes(y)) => Lexicographic(x, y)
    case (Date(x), Date(y)) => x < y
    case (Time(x), Time(y)) => x < y
    case (Timestamp(x), Timestamp(y)) => x < y
    case (Decimal(x), Decimal(y)) => x < y
    case _ => TypeRank(a) < TypeRank(b)
  }

  /** Values of different types come in this order. */
  lemma TypesInOrder(b: bool, i: int, bits: nat, s: string, bytes: seq<byte>, d: int, t: int, ts: int, dec: int)
    ensures Smaller(Null, Bool(b)) && Smaller(Bool(b), Int(i)) && Smaller(Int(i), Float(bits)) && Smaller(Float(bits), Str(s))
    ensures Smaller(Str(s), Bytes(bytes)) && Smaller(Bytes(bytes), Date(d)) && Smaller(Date(d), Time(t))
    ensures Smaller(Time(t), Timestamp(ts)) && Smaller(Timestamp(ts), Decimal(dec))
  {
  }

  lemma {:induction false} PowGrows(m: nat, n: nat)
    requires m <= n
    ensures Pow2(m) <= Pow2(n)
    decreases n
  {
    if m < n {
      PowGrows(m, n - 1);
    }
  }

  lemma TimesLess(a: nat, b: nat, p: nat)
    requires a < b && p > 0
    ensures a * p < b * p
  {
  }

  lemma TimesLeq(a: nat, p: nat, q: nat)
    requires p <= q
    ensures a * p <= a * q
  {
  }

  lemma UnitsBelowNext(magnitude: nat)
    ensures var e := magnitude / FRACTION;
            FRACTION * (if e == 0 then 0 else Pow2(e - 1)) <= Units(magnitude) < FRACTION * Pow2(e)
  {
    var e, f := magnitude / FRACTION, magnitude % FRACTION;
    if e > 0 {
      var p := Pow2(e - 1);
      TimesLess(FRACTION + f, 2 * FRACTION, p);
      assert (FRACTION + f) * p == FRACTION * p + f * p;
      assert f * p >= 0;
      assert 2 * FRACTION * p == FRACTION * (2 * p);
    }
  }

  lemma UnitsGrow(a: nat, b: nat)
    requires a < b
    ensures Units(a) < Units(b)
  {
    var e, f := a / FRACTION, b / FRACTION;
    if e == f {
      if e > 0 {
        TimesLess(FRACTION + a % FRACTION, FRACTION + b % FRACTION, Pow2(e - 1));
      }
    } else {
      UnitsBelowNext(a);
      UnitsBelowNext(b);
      PowGrows(e, f - 1);
      TimesLeq(FRACTION, Pow2(e), Pow2(f - 1));
    }
  }

  /** Comparing sign and magnitude compares the numbers. */
  lemma SignedIsNumeric(a: nat, b: nat)
    ensures Signed(a) < Signed(b) <==> Number(a) < Number(b)
  {
    var m, n := Magnitude(a), Magnitude(b);
    hide Units;
    UnitsZero();
    if m < n { UnitsGrow(m, n); }
    if n < m { UnitsGrow(n, m); }
    if 0 < m { UnitsGrow(0, m); }
    if 0 < n { UnitsGrow(0, n); }
  }

  lemma UnitsZero()
    ensures Units(0) == 0
  {
  }

  lemma {:induction false} LexicographicIs(a: seq<int>, b: seq<int>)
    ensures CompareInts(a, b) == Before <==> Lexicographic(a, b)
  {
    if a != [] && b != [] && a[0] == b[0] {
      LexicographicIs(a[1..], b[1..]);
      if Lexicographic(a[1..], b[1..]) {
        var n :| 0 <= n <= |a[1..]| && n < |b[1..]| && a[1..][..n] == b[1..][..n] && (n < |a[1..]| ==> a[1..][n] < b[1..][n]);
        var m := n + 1;
        assert a[..m] == [a[0]] + a[1..][..n] && b[..m] == [b[0]] + b[1..][..n];
      }
      if Lexicographic(a, b) {
        var n :| 0 <= n <= |a| && n < |b| && a[..n] == b[..n] && (n < |a| ==> a[n] < b[n]);
        var m := n - 1;
        assert a[1..][..m] == a[..n][1..] && b[1..][..m] == b[..n][1..];
      }
    } else {
      LexicographicHeads(a, b);
    }
  }

  lemma LexicographicHeads(a: seq<int>, b: seq<int>)
    requires a == [] || b == [] || a[0] != b[0]
    ensures Lexicographic(a, b) <==> b != [] && (a == [] || a[0] < b[0])
  {
    if b != [] && (a == [] || a[0] < b[0]) {
      assert a[..0] == b[..0];
    }
    if Lexicographic(a, b) {
      var n :| 0 <= n <= |a| && n < |b| && a[..n] == b[..n] && (n < |a| ==> a[n] < b[n]);
      SameHead(a, b, n);
    }
  }

  lemma SameHead(a: seq<int>, b: seq<int>, n: nat)
    ensures 0 < n <= |a| && n <= |b| && a[..n] == b[..n] ==> a[0] == b[0]
  {
    if 0 < n <= |a| && n <= |b| && a[..n] == b[..n] {
      assert a[..n][0] == a[0] && b[..n][0] == b[0];
    }
  }

  /** total_compare puts a value first exactly when it is the smaller one. */
  lemma BeforeIsSmaller(l: DbValue, r: DbValue)
    ensures TotalCompare(l, r) == Before <==> Smaller(l, r)
  {
    if l.Str? && r.Str? {
      LexicographicIs(CodePoints(l.s), CodePoints(r.s));
    } else if l.Bytes? && r.Bytes? {
      LexicographicIs(l.bytes, r.bytes);
    } else if l.Float? && r.Float? {
      SignedIsNumeric(l.bits, r.bits);
    }
  }

  /** Neither is smaller: the values are equal to stored-value equality. */
  ghost predicate Ties(a: DbValue, b: DbValue)
  {
    !Smaller(a, b) && !Smaller(b, a)
  }

  lemma TiesAreEqual(a: DbValue, b: DbValue)
    ensures Ties(a, b) <==> ValueEq(a, b)
  {
    hide TotalCompare, Smaller, ValueEq;
    BeforeIsSmaller(a, b);
    BeforeIsSmaller(b, a);
    TotalReverse(a, b);
  }

  /** In the first column that does not tie, a has the smaller value, or the larger one where the
      column sorts downwards. */
  ghost predicate KeyBefore(a: Row, b: Row, ascending: seq<bool>)
    requires |a| >= |ascending| && |b| >= |ascending|
  {
    exists n :: 0 <= n < |ascending| && DecidesAt(a, b, ascending, n) && forall i :: 0 <= i < n ==> Ties(a[i], b[i])
  }

  ghost predicate DecidesAt(a: Row, b: Row, ascending: seq<bool>, n: nat)
    requires n < |ascending| <= |a| && |ascending| <= |b|
  {
    if ascending[n] then Smaller(a[n], b[n]) else Smaller(b[n], a[n])
  }

  /** compare_keys answers Before exactly when a precedes b in the direction of the deciding column. */
  lemma {:induction false} BeforeFrom(a: Row, b: Row, ascending: seq<bool>, n: nat)
    requires |a| >= |ascending| && |b| >= |ascending| && n <= |ascending|
    requires forall i :: 0 <= i < n ==> Ties(a[i], b[i])
    ensures CompareFrom(a, b, ascending, n) == Before <==> KeyBefore(a, b, ascending)
    decreases |ascending| - n
  {
    hide TotalCompare, Smaller, ValueEq;
    if n < |ascending| {
      BeforeIsSmaller(a[n], b[n]);
      BeforeIsSmaller(b[n], a[n]);
      TotalReverse(a[n], b[n]);
      if Ties(a[n], b[n]) {
        BeforeFrom(a, b, ascending, n + 1);
      } else {
        assert DecidesAt(a, b, ascending, n) ==> KeyBefore(a, b, ascending);
        if KeyBefore(a, b, ascending) {
          var m :| 0 <= m < |ascending| && DecidesAt(a, b, ascending, m) && forall i :: 0 <= i < m ==> Ties(a[i], b[i]);
        }
      }
    }
  }

  lemma BeforeIsKeyBefore(a: Row, b: Row, ascending: seq<bool>)
    requires |a| >= |ascending| && |b| >= |ascending|
    ensures CompareKeys(a, b, ascending) == Before <==> KeyBefore(a, b, ascending)
    ensures CompareKeys(a, b, ascending) == After <==> KeyBefore(b, a, ascending)
  {
    hide KeyBefore, CompareFrom;
    BeforeFrom(a, b, ascending, 0);
    BeforeFrom(b, a, ascending, 0);
    KeysReverse(a, b, ascending, 0);
  }

  /** At most as late in the sort order. */
  ghost predicate KeyLeq(a: Row, b: Row, ascending: seq<bool>)
    requires |a| >= |ascending| && |b| >= |ascending|
  {
    !KeyBefore(b, a, ascending)
  }

  /** The sort order is a total preorder, whose ties are the keys equal in every sorted column. */
  lemma KeyOrder(a: Row, b: Row, c: Row, ascending: seq<bool>)
    requires |a| >= |ascending| && |b| >= |ascending| && |c| >= |ascending|
    ensures KeyLeq(a, a, ascending)
    ensures KeyLeq(a, b, ascending) || KeyLeq(b, a, ascending)
    ensures KeyLeq(a, b, ascending) && KeyLeq(b, c, ascending) ==> KeyLeq(a, c, ascending)
    ensures KeyLeq(a, b, ascending) && KeyLeq(b, a, ascending) <==> forall i :: 0 <= i < |ascending| ==> ValueEq(a[i], b[i])
  {
    hide TotalCompare, ValueEq, KeyBefore;
    BeforeIsKeyBefore(a, a, ascending);
    BeforeIsKeyBefore(a, b, ascending);
    BeforeIsKeyBefore(b, c, ascending);
    BeforeIsKeyBefore(a, c, ascending);
    KeysReverse(a, a, ascending, 0);
    KeysReverse(a, b, ascending, 0);
    if KeyLeq(a, b, ascending) && KeyLeq(b, c, ascending) {
      KeysTrans(a, b, c, ascending, 0);
    }
  }

  // ---------- Keys of values ----------

  lemma {:induction false} StrLessIs(s: string, t: string)
    ensures StrLeq(s, t) && s != t <==> Lexicographic(CodePoints(s), CodePoints(t))
  {
    if s != [] && t != [] {
      assert s == [s[0]] + s[1..] && t == [t[0]] + t[1..];
      assert CodePoints(s)[1..] == CodePoints(s[1..]) && CodePoints(t)[1..] == CodePoints(t[1..]);
      StrLessIs(s[1..], t[1..]);
      LexicographicIs(CodePoints(s[1..]), CodePoints(t[1..]));
    }
    LexicographicIs(CodePoints(s), CodePoints(t));
  }

  /** Exactly the values that are not null, floats or bytes have a key, and no two share one. */
  lemma KeysAreValues(a: DbValue, b: DbValue)
    ensures ValueToKey(a).Some? <==> !a.Null? && !a.Float? && !a.Bytes?
    ensures ValueToKey(a).Some? && ValueToKey(a) == ValueToKey(b) ==> a == b
  {
  }

  /** Within a type keys are ordered like their values. */
  lemma KeysInValueOrder(a: DbValue, b: DbValue)
    requires ValueToKey(a).Some? && ValueToKey(b).Some? && TypeRank(a) == TypeRank(b)
    ensures Less(ValueToKey(a).value, ValueToKey(b).value) <==> Smaller(a, b)
  {
    if a.Str? {
      StrLessIs(a.s, b.s);
    }
  }
}
