/** The typed keys and values of the storage layer, and the total order of keys. */
module Values {

  datatype Option<+T> = None | Some(value: T)

  function GetOr<T>(o: Option<T>, default: T): T
  {
    if o.Some? then o.value else default
  }

  type byte = b: int | 0 <= b < 256

  /**
   A storage key. The declaration order of the variants is part of the key order. Dates count days
   of the common era; a time is its second times 2 * 10^9 plus its nanosecond field, which reaches
   past 10^9 in a leap second; a timestamp is its date's first instant plus its time. A decimal counts
   units of 10^-28, the finest step of a 28-digit scale.
   */
  datatype DbKey =
    | KInt(i: int)
    | KDate(days: int)
    | KTime(nanos: int)
    | KTimestamp(instant: int)
    | KDecimal(dec: int)
    | KStr(s: string)
    | KBool(b: bool)
    | KComposite(parts: seq<DbKey>)

  /** A column value. A float is kept as its 64-bit IEEE 754 pattern. */
  datatype DbValue =
    | Int(i: int)
    | Float(bits: nat)
    | Str(s: string)
    | Bytes(bytes: seq<byte>)
    | Bool(b: bool)
    | Null
    | Date(days: int)
    | Time(nanos: int)
    | Timestamp(instant: int)
    | Decimal(dec: int)

  type Row = seq<DbValue>

  lemma HasElement<T>(s: seq<T>)
    ensures s == [] || exists x :: x in s
  {
    if s != [] { assert s[0] in s; }
  }

  /** The key of a value, for the types that may be keys. */
  function ValueToKey(v: DbValue): (k: Option<DbKey>)
  {
    match v
    case Int(i) => Some(KInt(i))
    case Str(s) => Some(KStr(s))
    case Bool(b) => Some(KBool(b))
    case Date(d) => Some(KDate(d))
    case Time(t) => Some(KTime(t))
    case Timestamp(ts) => Some(KTimestamp(ts))
    case Decimal(d) => Some(KDecimal(d))
    case _ => None
  }

  // ---------- The order of keys ----------

  function Rank(k: DbKey): nat
  {
    match k
    case KInt(_) => 0
    case KDate(_) => 1
    case KTime(_) => 2
    case KTimestamp(_) => 3
    case KDecimal(_) => 4
    case KStr(_) => 5
    case KBool(_) => 6
    case KComposite(_) => 7
  }

  predicate StrLeq(s: string, t: string)
  {
    if s == [] then true
    else if t == [] then false
    else if s[0] == t[0] then StrLeq(s[1..], t[1..])
    else s[0] < t[0]
  }

  /** Variants compare by rank; composites compare part by part, a prefix first. */
  predicate Leq(a: DbKey, b: DbKey)
    decreases a
  {
    if Rank(a) != Rank(b) then Rank(a) < Rank(b)
    else match a
      case KInt(x) => x <= b.i
      case KDate(x) => x <= b.days
      case KTime(x) => x <= b.nanos
      case KTimestamp(x) => x <= b.instant
      case KDecimal(x) => x <= b.dec
      case KStr(x) => StrLeq(x, b.s)
      case KBool(x) => x ==> b.b
      case KComposite(x) => SeqLeq(x, b.parts)
  }

  predicate SeqLeq(p: seq<DbKey>, q: seq<DbKey>)
    decreases p
  {
    if p == [] then true
    else if q == [] then false
    else if p[0] == q[0] then SeqLeq(p[1..], q[1..])
    else Leq(p[0], q[0])
  }

  predicate Less(a: DbKey, b: DbKey)
  {
    a != b && Leq(a, b)
  }

  predicate InRange(k: DbKey, lo: DbKey, hi: DbKey)
  {
    Leq(lo, k) && Leq(k, hi)
  }

  lemma {:induction false} StrTotal(s: string, t: string)
    ensures StrLeq(s, t) || StrLeq(t, s)
    ensures StrLeq(s, t) && StrLeq(t, s) ==> s == t
  {
    if s != [] && t != [] && s[0] == t[0] {
      StrTotal(s[1..], t[1..]);
      assert s == [s[0]] + s[1..] && t == [t[0]] + t[1..];
    }
  }

  lemma {:induction false} StrTrans(s: string, t: string, u: string)
    requires StrLeq(s, t) && StrLeq(t, u)
    ensures StrLeq(s, u)
  {
    if s != [] && s[0] == t[0] && t[0] == u[0] {
      StrTrans(s[1..], t[1..], u[1..]);
    }
  }

  /** Any two keys are comparable, and only equal keys compare both ways. */
  lemma {:induction false} LeqTotal(a: DbKey, b: DbKey)
    ensures Leq(a, b) || Leq(b, a)
    ensures Leq(a, b) && Leq(b, a) ==> a == b
    decreases a
  {
    if a.KStr? && b.KStr? {
      StrTotal(a.s, b.s);
    } else if a.KComposite? && b.KComposite? {
      SeqLeqTotal(a.parts, b.parts);
    }
  }

  lemma {:induction false} SeqLeqTotal(p: seq<DbKey>, q: seq<DbKey>)
    ensures SeqLeq(p, q) || SeqLeq(q, p)
    ensures SeqLeq(p, q) && SeqLeq(q, p) ==> p == q
    decreases p
  {
    if p != [] && q != [] {
      if p[0] == q[0] {
        SeqLeqTotal(p[1..], q[1..]);
        assert p == [p[0]] + p[1..] && q == [q[0]] + q[1..];
      } else {
        LeqTotal(p[0], q[0]);
      }
    }
  }

  lemma {:induction false} LeqTrans(a: DbKey, b: DbKey, c: DbKey)
    requires Leq(a, b) && Leq(b, c)
    ensures Leq(a, c)
    decreases a
  {
    if a.KStr? && b.KStr? && c.KStr? {
      StrTrans(a.s, b.s, c.s);
    } else if a.KComposite? && b.KComposite? && c.KComposite? {
      SeqLeqTrans(a.parts, b.parts, c.parts);
    }
  }

  lemma {:induction false} SeqLeqTrans(p: seq<DbKey>, q: seq<DbKey>, r: seq<DbKey>)
    requires SeqLeq(p, q) && SeqLeq(q, r)
    ensures SeqLeq(p, r)
    decreases p
  {
    if p != [] {
      if p[0] == q[0] && q[0] == r[0] {
        SeqLeqTrans(p[1..], q[1..], r[1..]);
      } else if p[0] != q[0] && q[0] != r[0] {
        LeqTrans(p[0], q[0], r[0]);
        if p[0] == r[0] {
          LeqTotal(p[0], q[0]);
        }
      }
    }
  }

  lemma LeqRefl(a: DbKey)
    ensures Leq(a, a)
  {
    LeqTotal(a, a);
  }

  lemma LessTrans(a: DbKey, b: DbKey, c: DbKey)
    requires Less(a, b) && Leq(b, c)
    ensures Less(a, c)
  {
    LeqTrans(a, b, c);
    LeqTotal(a, b);
  }

  /** Keys of different types come in this order, composite keys last. */
  lemma KeyTypesInOrder(i: int, d: int, t: int, ts: int, dec: int, s: string, b: bool, parts: seq<DbKey>)
    ensures Less(KInt(i), KDate(d)) && Less(KDate(d), KTime(t)) && Less(KTime(t), KTimestamp(ts))
    ensures Less(KTimestamp(ts), KDecimal(dec)) && Less(KDecimal(dec), KStr(s)) && Less(KStr(s), KBool(b))
    ensures Less(KBool(b), KComposite(parts))
  {
  }

  /** The two agree before place n, and there p has run out or has the smaller part. */
  ghost predicate SmallerAt(p: seq<DbKey>, q: seq<DbKey>, n: nat)
  {
    n <= |p| && n < |q| && p[..n] == q[..n] && (n < |p| ==> Less(p[n], q[n]))
  }

  /** Composite keys are in lexicographic order of their parts. */
  lemma CompositesInOrder(p: seq<DbKey>, q: seq<DbKey>)
    ensures Less(KComposite(p), KComposite(q)) <==> exists n: nat :: SmallerAt(p, q, n)
  {
    assert Leq(KComposite(p), KComposite(q)) == SeqLeq(p, q);
    PartsInOrder(p, q);
  }

  lemma {:induction false} PartsInOrder(p: seq<DbKey>, q: seq<DbKey>)
    ensures p != q && SeqLeq(p, q) <==> exists n: nat :: SmallerAt(p, q, n)
    decreases |p|
  {
    if p == [] || q == [] || p[0] != q[0] {
      SmallerFirst(p, q);
    } else {
      var p', q' := p[1..], q[1..];
      PartsInOrder(p', q');
      assert p != q <==> p' != q' by { assert p == [p[0]] + p' && q == [q[0]] + q'; }
      if n: nat :| SmallerAt(p', q', n) {
        SmallerBehind(p, q, n);
        assert SmallerAt(p, q, n + 1);
      }
      if n: nat :| SmallerAt(p, q, n) {
        SmallerBehind(p, q, n - 1);
        assert SmallerAt(p', q', n - 1);
      }
    }
  }

  lemma SmallerBehind(p: seq<DbKey>, q: seq<DbKey>, n: nat)
    requires p != [] && q != [] && p[0] == q[0]
    ensures SmallerAt(p, q, n + 1) <==> SmallerAt(p[1..], q[1..], n)
  {
    hide Less;
    if n < |p| && n < |q| {
      assert p[..n + 1] == [p[0]] + p[1..][..n] && q[..n + 1] == [q[0]] + q[1..][..n];
      assert p[1..][..n] == p[..n + 1][1..] && q[1..][..n] == q[..n + 1][1..];
    }
  }

  lemma SmallerHeads(p: seq<DbKey>, q: seq<DbKey>, n: nat)
    requires SmallerAt(p, q, n)
    ensures n > 0 ==> p != [] && q != [] && p[0] == q[0]
  {
    if n > 0 {
      assert p[..n][0] == p[0] && q[..n][0] == q[0];
    }
  }

  lemma SmallerFirst(p: seq<DbKey>, q: seq<DbKey>)
    requires p == [] || q == [] || p[0] != q[0]
    ensures p != q && SeqLeq(p, q) <==> exists n: nat :: SmallerAt(p, q, n)
  {
    assert SmallerAt(p, q, 0) <==> p != q && SeqLeq(p, q);
    forall n: nat | SmallerAt(p, q, n) ensures n > 0 ==> p != [] && q != [] && p[0] == q[0] {
      SmallerHeads(p, q, n);
    }
  }
}
