/** Rows on the wire, in the varint and tagged-union encoding of the postcard wire format specification. */
module RowCodec {
  import opened Values
  import opened Bounds
  import opened RunFiles
  import Utf8

  /** The part of the format that other libraries define: dates, times and decimals as tagged values
      of their own. */
  datatype Wire = Wire(
    encodeOther: DbValue -> seq<byte>,
    takeOther: seq<byte> -> Option<(DbValue, seq<byte>)>)

  function Tag(v: DbValue): byte
  {
    match v
    case Int(_) => 0
    case Float(_) => 1
    case Str(_) => 2
    case Bytes(_) => 3
    case Bool(_) => 4
    case Null => 5
    case Date(_) => 6
    case Time(_) => 7
    case Timestamp(_) => 8
    case Decimal(_) => 9
  }

  /** The dates, times and decimals that exist: calendar dates, times of a day, 96-bit decimals. */
  predicate Representable(v: DbValue)
  {
    match v
    case Date(days) => DATE_MIN <= days <= DATE_MAX
    case Time(nanos) => 0 <= nanos < DAY
    case Timestamp(instant) => DATE_MIN * DAY <= instant < (DATE_MAX + 1) * DAY
    case Decimal(dec) => -DECIMAL_MAX <= dec <= DECIMAL_MAX
    case _ => false
  }

  /** Those values start with their tag and read back as themselves, whatever follows. */
  ghost predicate Faithful(w: Wire)
  {
    && (forall v :: Representable(v) ==> w.encodeOther(v) != [] && w.encodeOther(v)[0] == Tag(v))
    && (forall v, rest :: Representable(v) ==> w.takeOther(w.encodeOther(v) + rest) == Some((v, rest)))
  }

  // ---------- Varints ----------

  function EncodeVarint(n: nat): (bytes: seq<byte>)
    ensures bytes != []
  {
    if n < 128 then [n] else [128 + n % 128] + EncodeVarint(n / 128)
  }

  function Pow128(k: nat): (r: nat)
    ensures r > 0
  {
    if k == 0 then 1 else 128 * Pow128(k - 1)
  }

  /** The seven-bit groups of a varint, least significant first, shifted into a 64-bit word. */
  function Word(bytes: seq<byte>): nat
  {
    if bytes == [] then 0
    else
      var k := |bytes| - 1;
      Word(bytes[..k]) + (bytes[k] % 128) * Pow128(k) % U64_LIMIT
  }

  /** The same groups, without the word limit. */
  function Groups(bytes: seq<byte>): nat
  {
    if bytes == [] then 0
    else
      var k := |bytes| - 1;
      Groups(bytes[..k]) + (bytes[k] % 128) * Pow128(k)
  }

  /** The first byte at or after i that has no continuation bit, if it is among the first ten. */
  function Terminator(buf: seq<byte>, i: nat): (r: Option<nat>)
    ensures r.Some? ==> i <= r.value < |buf| && r.value < 10 && buf[r.value] < 128
    ensures r.Some? ==> forall j :: i <= j < r.value ==> buf[j] >= 128
    ensures r.None? ==> forall j :: i <= j < |buf| && j < 10 ==> buf[j] >= 128
    decreases |buf| - i
  {
    if i >= |buf| || i >= 10 then None
    else if buf[i] < 128 then Some(i)
    else Terminator(buf, i + 1)
  }

  /** A varint at the front of a buffer and what follows it; None when truncated or too long. */
  function DecodeVarint(buf: seq<byte>): Option<(nat, seq<byte>)>
  {
    var k := Terminator(buf, 0);
    if k.None? then None else Some((Word(buf[..k.value + 1]), buf[k.value + 1..]))
  }

  method ReadVarint(buf: seq<byte>) returns (r: Option<(nat, seq<byte>)>)
    ensures r == DecodeVarint(buf)
  {
    var value := 0;
    var power := 1;
    for i := 0 to |buf|
      invariant i <= 10 || Terminator(buf, 0).None?
      invariant i <= 10 ==> value == Word(buf[..i]) && power == Pow128(i)
      invariant Terminator(buf, 0) == Terminator(buf, i)
    {
      if i >= 10 {
        return None;
      }
      var byte := buf[i];
      assert buf[..i + 1][..i] == buf[..i];
      value := value + (byte % 128) * power % U64_LIMIT;
      if byte < 128 {
        return Some((value, buf[i + 1..]));
      }
      power := 128 * power;
    }
    r := None;
  }

  lemma {:induction false} GroupsFront(b: byte, rest: seq<byte>)
    ensures Groups([b] + rest) == b % 128 + 128 * Groups(rest)
  {
    if rest == [] {
      assert ([b] + rest)[..0] == [] && Pow128(0) == 1;
    } else {
      var k := |rest| - 1;
      GroupsFront(b, rest[..k]);
      assert ([b] + rest)[..k + 1] == [b] + rest[..k];
      assert Groups([b] + rest) == Groups([b] + rest[..k]) + (rest[k] % 128) * Pow128(k + 1);
      Regroup(rest[k] % 128, Pow128(k));
    }
  }

  lemma Regroup(x: nat, p: nat)
    ensures x * (128 * p) == 128 * (x * p)
  {
  }

  /** Where nothing overflows, the word is the sum of its groups. */
  lemma {:induction false} WordIsGroups(bytes: seq<byte>)
    requires Groups(bytes) < U64_LIMIT
    ensures Word(bytes) == Groups(bytes)
  {
    if bytes != [] {
      var k := |bytes| - 1;
      WordIsGroups(bytes[..k]);
    }
  }

  lemma {:induction false} VarintShape(n: nat)
    ensures Groups(EncodeVarint(n)) == n
    ensures var e := EncodeVarint(n);
            e[|e| - 1] < 128 && forall i :: 0 <= i < |e| - 1 ==> e[i] >= 128
  {
    hide Groups;
    if n < 128 {
      GroupsFront(n, []);
      assert Groups([]) == 0 by { NoGroups(); }
      assert [n] + [] == EncodeVarint(n);
    } else {
      VarintShape(n / 128);
      GroupsFront(128 + n % 128, EncodeVarint(n / 128));
      LowGroup(n);
    }
  }

  lemma NoGroups()
    ensures Groups([]) == 0
  {
  }

  lemma LowGroup(n: nat)
    ensures (128 + n % 128) % 128 + 128 * (n / 128) == n
  {
  }

  lemma {:induction false} VarintLength(n: nat, k: nat)
    requires k > 0 && n < Pow128(k)
    ensures |EncodeVarint(n)| <= k
  {
    if n >= 128 {
      assert Pow128(0) == 1;
      VarintLength(n / 128, k - 1);
    }
  }

  lemma TenGroups()
    ensures U64_LIMIT <= Pow128(10)
  {
    assert Pow128(2) == 16384 by { assert Pow128(1) == 128 by { assert Pow128(0) == 1; } }
    assert Pow128(4) == 128 * (128 * Pow128(2));
    assert Pow128(6) == 128 * (128 * Pow128(4));
    assert Pow128(8) == 128 * (128 * Pow128(6));
    assert Pow128(10) == 128 * (128 * Pow128(8));
  }

  /** The varint reader inverts the varint encoding for every 64-bit value and leaves the rest untouched. */
  lemma VarintRoundTrip(n: nat, rest: seq<byte>)
    requires n < U64_LIMIT
    ensures DecodeVarint(EncodeVarint(n) + rest) == Some((n, rest))
  {
    var e := EncodeVarint(n);
    VarintShape(n);
    TenGroups();
    VarintLength(n, 10);
    var buf := e + rest;
    var k := Terminator(buf, 0);
    assert buf[|e| - 1] == e[|e| - 1];
    assert forall i :: 0 <= i < |e| - 1 ==> buf[i] == e[i];
    assert k == Some(|e| - 1);
    assert buf[..|e|] == e && buf[|e|..] == rest;
    WordIsGroups(e);
  }

  // ---------- Zigzag ----------

  const I64_LIMIT: int := 0x8000_0000_0000_0000

  function ZigZag(i: int): nat
  {
    if i >= 0 then 2 * i else -2 * i - 1
  }

  function UnZigZag(z: nat): int
  {
    if z % 2 == 0 then z / 2 else -(z / 2) - 1
  }

  /** Zigzag is a bijection between the 64-bit signed and unsigned integers. */
  lemma ZigZagInverts(i: int, z: nat)
    ensures UnZigZag(ZigZag(i)) == i && ZigZag(UnZigZag(z)) == z
    ensures -I64_LIMIT <= i < I64_LIMIT <==> ZigZag(i) < U64_LIMIT
  {
  }

  // ---------- Values ----------

  predicate Encodable(v: DbValue)
  {
    match v
    case Int(i) => -I64_LIMIT <= i < I64_LIMIT
    case Float(bits) => bits < U64_LIMIT
    case Str(s) => |Utf8.Encode(s)| < U64_LIMIT
    case Bytes(b) => |b| < U64_LIMIT
    case Bool(_) => true
    case Null => true
    case _ => Representable(v)
  }

  function EncodeValue(w: Wire, v: DbValue): seq<byte>
  {
    match v
    case Int(i) => [0] + EncodeVarint(ZigZag(i))
    case Float(bits) => [1] + ToLe(bits, 8)
    case Str(s) => [2] + EncodeVarint(|Utf8.Encode(s)|) + Utf8.Encode(s)
    case Bytes(b) => [3] + EncodeVarint(|b|) + b
    case Bool(b) => [4, if b then 1 else 0]
    case Null => [5]
    case _ => w.encodeOther(v)
  }

  function TakeBytes(cursor: seq<byte>, n: nat): Option<(seq<byte>, seq<byte>)>
  {
    if |cursor| < n then None else Some((cursor[..n], cursor[n..]))
  }

  function TakeBlock(cursor: seq<byte>): Option<(seq<byte>, seq<byte>)>
  {
    var len := DecodeVarint(cursor);
    if len.None? then None else TakeBytes(len.value.1, len.value.0)
  }

  /** One column: decoded when it is projected, otherwise consumed and replaced by null. */
  function TakeValue(w: Wire, cursor: seq<byte>, keep: bool): Option<(DbValue, seq<byte>)>
  {
    var tag := DecodeVarint(cursor);
    if tag.None? then None
    else
      var rest := tag.value.1;
      match tag.value.0
      case 0 =>
        var z := DecodeVarint(rest);
        if z.None? then None else Some((if keep then Int(UnZigZag(z.value.0)) else Null, z.value.1))
      case 1 =>
        var raw := TakeBytes(rest, 8);
        if raw.None? then None else Some((if keep then Float(FromLe(raw.value.0)) else Null, raw.value.1))
      case 2 =>
        var raw := TakeBlock(rest);
        if raw.None? then None
        else if !keep then Some((Null, raw.value.1))
        else
          var s := Utf8.Decode(raw.value.0);
          if s.None? then None else Some((Str(s.value), raw.value.1))
      case 3 =>
        var raw := TakeBlock(rest);
        if raw.None? then None else Some((if keep then Bytes(raw.value.0) else Null, raw.value.1))
      case 4 =>
        var raw := TakeBytes(rest, 1);
        if raw.None? then None else Some((if keep then Bool(raw.value.0[0] != 0) else Null, raw.value.1))
      case 5 => Some((Null, rest))
      case n =>
        if n > 9 then None
        else
          var v := w.takeOther(cursor);
          if v.None? then None else Some((if keep then v.value.0 else Null, v.value.1))
  }

  lemma TagReads(t: byte, rest: seq<byte>)
    requires t < 10
    ensures DecodeVarint([t] + rest) == Some((t, rest))
  {
    assert EncodeVarint(t) == [t];
    VarintRoundTrip(t, rest);
  }

  lemma BytesRead(bytes: seq<byte>, rest: seq<byte>)
    ensures TakeBytes(bytes + rest, |bytes|) == Some((bytes, rest))
  {
    assert (bytes + rest)[..|bytes|] == bytes && (bytes + rest)[|bytes|..] == rest;
  }

  lemma BlockReads(bytes: seq<byte>, rest: seq<byte>)
    requires |bytes| < U64_LIMIT
    ensures TakeBlock(EncodeVarint(|bytes|) + bytes + rest) == Some((bytes, rest))
  {
    hide DecodeVarint, EncodeVarint, TakeBytes;
    var buf := EncodeVarint(|bytes|) + (bytes + rest);
    assert EncodeVarint(|bytes|) + bytes + rest == buf;
    VarintRoundTrip(|bytes|, bytes + rest);
    BytesRead(bytes, rest);
    assert TakeBlock(buf) == TakeBytes(bytes + rest, |bytes|);
  }

  lemma NumberRoundTrip(w: Wire, v: DbValue, rest: seq<byte>, keep: bool)
    requires (v.Int? || v.Float?) && Encodable(v)
    ensures TakeValue(w, EncodeValue(w, v) + rest, keep) == Some((if keep then v else Null, rest))
  {
    hide DecodeVarint, EncodeVarint, ToLe, FromLe, ZigZag, UnZigZag, TakeBlock;
    var buf := EncodeValue(w, v) + rest;
    var body := buf[1..];
    assert buf == [Tag(v)] + body;
    TagReads(Tag(v), body);
    if v.Int? {
      assert body == EncodeVarint(ZigZag(v.i)) + rest;
      ZigZagInverts(v.i, 0);
      VarintRoundTrip(ZigZag(v.i), rest);
    } else {
      assert body == ToLe(v.bits, 8) + rest;
      Widths();
      LeRoundTrip(v.bits, 8);
      assert body[..8] == ToLe(v.bits, 8) && body[8..] == rest;
    }
  }

  lemma BlockRoundTrip(w: Wire, v: DbValue, rest: seq<byte>, keep: bool)
    requires (v.Str? || v.Bytes?) && Encodable(v)
    ensures TakeValue(w, EncodeValue(w, v) + rest, keep) == Some((if keep then v else Null, rest))
  {
    hide DecodeVarint, EncodeVarint, ToLe, FromLe, ZigZag, UnZigZag, TakeBlock;
    var block := if v.Str? then Utf8.Encode(v.s) else v.bytes;
    var buf := EncodeValue(w, v) + rest;
    var body := EncodeVarint(|block|) + block + rest;
    assert buf == [Tag(v)] + body;
    TagReads(Tag(v), body);
    BlockReads(block, rest);
    if v.Str? { Utf8.RoundTrip(v.s); }
  }

  lemma SmallRoundTrip(w: Wire, v: DbValue, rest: seq<byte>, keep: bool)
    requires Faithful(w) && (v.Bool? || v.Null? || Representable(v))
    ensures TakeValue(w, EncodeValue(w, v) + rest, keep) == Some((if keep then v else Null, rest))
  {
    hide DecodeVarint, EncodeVarint, ToLe, FromLe, ZigZag, UnZigZag, TakeBlock;
    var buf := EncodeValue(w, v) + rest;
    var body := buf[1..];
    assert buf == [Tag(v)] + body;
    TagReads(Tag(v), body);
    if v.Bool? {
      assert body[..1] == [if v.b then 1 else 0] && body[1..] == rest;
    } else if v.Null? {
      assert body == rest;
    }
  }

  /** A column read back is the column written, or null when skipped; either way exactly its bytes are consumed. */
  lemma ValueRoundTrip(w: Wire, v: DbValue, rest: seq<byte>, keep: bool)
    requires Faithful(w) && Encodable(v)
    ensures TakeValue(w, EncodeValue(w, v) + rest, keep) == Some((if keep then v else Null, rest))
  {
    hide TakeValue, EncodeValue, Faithful;
    if v.Int? || v.Float? {
      NumberRoundTrip(w, v, rest, keep);
    } else if v.Str? || v.Bytes? {
      BlockRoundTrip(w, v, rest, keep);
    } else {
      SmallRoundTrip(w, v, rest, keep);
    }
  }

  // ---------- Rows ----------

  function EncodeValues(w: Wire, row: Row): seq<byte>
  {
    if row == [] then [] else EncodeValue(w, row[0]) + EncodeValues(w, row[1..])
  }

  function EncodeRow(w: Wire, row: Row): seq<byte>
  {
    EncodeVarint(|row|) + EncodeValues(w, row)
  }

  predicate RowEncodable(row: Row)
  {
    |row| < U64_LIMIT && forall i :: 0 <= i < |row| ==> Encodable(row[i])
  }

  /** Columns i to n from a cursor. */
  function TakeValues(w: Wire, cursor: seq<byte>, i: nat, n: nat, projected: set<nat>): Option<Row>
    requires i <= n
    decreases n - i
  {
    if i == n then Some([])
    else
      var v := TakeValue(w, cursor, i in projected);
      if v.None? then None
      else
        Joined([v.value.0], TakeValues(w, v.value.1, i + 1, n, projected))
  }

  function Joined(front: Row, more: Option<Row>): Option<Row>
  {
    if more.None? then None else Some(front + more.value)
  }

  function DecodeProjected(w: Wire, bytes: seq<byte>, projected: set<nat>): Option<Row>
  {
    var len := DecodeVarint(bytes);
    if len.None? then None else TakeValues(w, len.value.1, 0, len.value.0, projected)
  }

  /** The projected decoder: one pass over the buffer, building only the projected columns. */
  method FromBytesProjected(w: Wire, bytes: seq<byte>, projection: seq<nat>) returns (r: Option<Row>)
    ensures r == DecodeProjected(w, bytes, set i | i in projection)
  {
    hide TakeValue, DecodeVarint;
    var len := ReadVarint(bytes);
    if len.None? {
      return None;
    }
    var cursor, n := len.value.1, len.value.0;
    ghost var projected := set i | i in projection;
    ghost var all := TakeValues(w, cursor, 0, n, projected);
    assert all.Some? ==> [] + all.value == all.value;
    var values := [];
    for i := 0 to n
      invariant all == Joined(values, TakeValues(w, cursor, i, n, projected))
    {
      var v := TakeValue(w, cursor, i in projection);
      assert i in projection <==> i in projected;
      if v.None? {
        return None;
      }
      ghost var more := TakeValues(w, v.value.1, i + 1, n, projected);
      assert more.Some? ==> values + ([v.value.0] + more.value) == values + [v.value.0] + more.value;
      cursor, values := v.value.1, values + [v.value.0];
    }
    assert values + [] == values;
    r := Some(values);
  }

  function Nulled(row: Row, projected: set<nat>): Row
  {
    seq(|row|, i requires 0 <= i < |row| => if i in projected then row[i] else Null)
  }

  lemma {:induction false} ValuesRoundTrip(w: Wire, row: Row, i: nat, rest: seq<byte>, projected: set<nat>)
    requires Faithful(w) && RowEncodable(row) && i <= |row|
    ensures TakeValues(w, EncodeValues(w, row[i..]) + rest, i, |row|, projected) == Some(Nulled(row, projected)[i..])
    decreases |row| - i
  {
    hide EncodeValue, TakeValue, Encodable;
    if i < |row| {
      var tail := EncodeValues(w, row[i + 1..]) + rest;
      assert row[i..][1..] == row[i + 1..];
      assert EncodeValues(w, row[i..]) + rest == EncodeValue(w, row[i]) + tail;
      ValueRoundTrip(w, row[i], tail, i in projected);
      ValuesRoundTrip(w, row, i + 1, rest, projected);
      assert [Nulled(row, projected)[i]] + Nulled(row, projected)[i + 1..] == Nulled(row, projected)[i..];
    } else {
      assert Nulled(row, projected)[i..] == [];
    }
  }

  /** Decoding a projection of an encoded row gives the full row with the other columns nulled,
      whatever bytes follow; projecting every column gives the row itself. */
  lemma ProjectedDecodeIsNulledRow(w: Wire, row: Row, trailing: seq<byte>, projected: set<nat>)
    requires Faithful(w) && RowEncodable(row)
    ensures DecodeProjected(w, EncodeRow(w, row) + trailing, projected) == Some(Nulled(row, projected))
    ensures (forall i :: 0 <= i < |row| ==> i in projected) ==> Nulled(row, projected) == row
  {
    hide Encodable, TakeValues, EncodeValues, DecodeVarint, EncodeVarint;
    var body := EncodeValues(w, row) + trailing;
    assert EncodeRow(w, row) + trailing == EncodeVarint(|row|) + body;
    VarintRoundTrip(|row|, body);
    assert row[0..] == row && Nulled(row, projected)[0..] == Nulled(row, projected);
    ValuesRoundTrip(w, row, 0, trailing, projected);
  }

  /** A value of every kind the format spells out, byte by byte, and a row of two. */
  lemma RowBytes(w: Wire)
    ensures EncodeValue(w, Int(-1)) == [0, 1] && EncodeValue(w, Int(300)) == [0, 216, 4]
    ensures EncodeValue(w, Float(1)) == [1] + [1, 0, 0, 0, 0, 0, 0, 0]
    ensures EncodeValue(w, Str("a")) == [2, 1, 97] && EncodeValue(w, Bytes([7])) == [3, 1, 7]
    ensures EncodeValue(w, Bool(true)) == [4, 1] && EncodeValue(w, Null) == [5]
    ensures EncodeRow(w, [Int(-1), Null]) == [2, 0, 1, 5]
  {
    assert EncodeVarint(600) == [216, 4] by { assert EncodeVarint(4) == [4]; }
    assert ToLe(1, 8) == [1, 0, 0, 0, 0, 0, 0, 0] by {
      assert ToLe(0, 3) == [0, 0, 0];
      assert ToLe(0, 5) == [0, 0, 0, 0, 0];
      assert ToLe(0, 7) == [0, 0, 0, 0, 0, 0, 0];
    }
    assert Utf8.Encode("a") == [97];
    assert EncodeValues(w, [Null]) == [5];
    assert [Int(-1), Null][1..] == [Null];
  }

  // ---------- The hypotheses are met ----------

  function UpTo(n: nat): (r: set<nat>)
    ensures forall i: nat :: i in r <==> i < n
  {
    if n == 0 then {} else UpTo(n - 1) + {n - 1}
  }

  /** A complete row from a buffer. */
  function DecodeRow(w: Wire, bytes: seq<byte>): Option<Row>
  {
    var len := DecodeVarint(bytes);
    if len.None? then None else TakeValues(w, len.value.1, 0, len.value.0, UpTo(len.value.0))
  }

  /** The run-file encoding of sort keys and payloads: rows in this format. */
  function RowRunCodec(w: Wire): Codec
  {
    Codec(row => EncodeRow(w, row), bytes => DecodeRow(w, bytes), row => RowEncodable(row))
  }

  /** Run files written in the row format lose nothing: the codec the external sort uses is lossless. */
  lemma RowRunCodecLossless(w: Wire)
    requires Faithful(w)
    ensures Lossless(RowRunCodec(w))
  {
    forall row | RowEncodable(row) ensures DecodeRow(w, EncodeRow(w, row)) == Some(row) {
      RowRoundTrip(w, row);
    }
  }

  lemma RowRoundTrip(w: Wire, row: Row)
    requires Faithful(w) && RowEncodable(row)
    ensures DecodeRow(w, EncodeRow(w, row)) == Some(row)
  {
    hide Encodable, TakeValues, EncodeValues, DecodeVarint, EncodeVarint, Faithful, UpTo;
    var n := |row|;
    var all := UpTo(n);
    var body := EncodeValues(w, row);
    VarintRoundTrip(n, body);
    assert body + [] == body && row[0..] == row;
    assert Nulled(row, all) == row && row[0..] == row;
    ValuesRoundTrip(w, row, 0, [], all);
  }

  /** A run of rows read back is the run that was written: entries whose rows have 64-bit numbers and
      lengths, in records below four gigabytes. */
  lemma RunOfRowsReadsBack(w: Wire, es: seq<Entry>)
    requires Faithful(w) && |es| < U64_LIMIT
    requires forall e :: e in es ==> RowEncodable(e.keys) && RowEncodable(e.payload)
    requires forall e :: e in es ==> |EncodeRow(w, e.keys)| < U32_LIMIT && |EncodeRow(w, e.payload)| < U32_LIMIT
    ensures var run := Open(RowRunCodec(w), FileOf(RowRunCodec(w), es));
            run.Some? && Drain(RowRunCodec(w), run.value) == Some(es)
  {
    hide RowEncodable, EncodeRow, Faithful, Lossless, Open, Drain, FileOf;
    RowRunCodecLossless(w);
    RunRoundTrip(RowRunCodec(w), es);
  }

  const OTHER_WIDTH: nat := 24

  function OtherPayload(v: DbValue): int
  {
    match v
    case Date(days) => days
    case Time(nanos) => nanos
    case Timestamp(instant) => instant
    case Decimal(dec) => dec
    case _ => 0
  }

  function OtherOf(tag: byte, payload: int): DbValue
  {
    if tag == 6 then Date(payload) else if tag == 7 then Time(payload)
    else if tag == 8 then Timestamp(payload) else Decimal(payload)
  }

  function EncodeFixed(v: DbValue): seq<byte>
  {
    [Tag(v)] + ToLe(ZigZag(OtherPayload(v)), OTHER_WIDTH)
  }

  function TakeFixed(buf: seq<byte>): Option<(DbValue, seq<byte>)>
  {
    if |buf| < OTHER_WIDTH + 1 then None
    else Some((OtherOf(buf[0], UnZigZag(FromLe(buf[1..OTHER_WIDTH + 1]))), buf[OTHER_WIDTH + 1..]))
  }

  /** A wire format that meets every demand: each such value as its tag and a fixed-width integer. */
  function FixedWire(): Wire
  {
    Wire(v => EncodeFixed(v), buf => TakeFixed(buf))
  }

  lemma FixedWireFaithful()
    ensures Faithful(FixedWire())
  {
    forall v, rest | Representable(v) ensures TakeFixed(EncodeFixed(v) + rest) == Some((v, rest)) {
      FixedRoundTrip(v, rest);
    }
  }

  lemma FixedRoundTrip(v: DbValue, rest: seq<byte>)
    requires Representable(v)
    ensures TakeFixed(EncodeFixed(v) + rest) == Some((v, rest))
  {
    var z := ZigZag(OtherPayload(v));
    var bytes := ToLe(z, OTHER_WIDTH);
    assert z < Pow256(OTHER_WIDTH) by { PayloadFits(v); }
    LeRoundTrip(z, OTHER_WIDTH);
    ZigZagInverts(OtherPayload(v), 0);
    var buf := EncodeFixed(v) + rest;
    assert buf[1..OTHER_WIDTH + 1] == bytes && buf[OTHER_WIDTH + 1..] == rest;
  }

  lemma PayloadFits(v: DbValue)
    requires Representable(v)
    ensures ZigZag(OtherPayload(v)) < Pow256(OTHER_WIDTH)
  {
    Widths();
    assert Pow256(12) == 0x1_0000_0000 * U64_LIMIT by {
      assert Pow256(10) == 256 * (256 * Pow256(8));
      assert Pow256(12) == 256 * (256 * Pow256(10));
    }
    assert Pow256(16) == 0x1_0000_0000 * Pow256(12) by {
      assert Pow256(14) == 256 * (256 * Pow256(12));
      assert Pow256(16) == 256 * (256 * Pow256(14));
    }
    assert Pow256(20) == 0x1_0000_0000 * Pow256(16) by {
      assert Pow256(18) == 256 * (256 * Pow256(16));
      assert Pow256(20) == 256 * (256 * Pow256(18));
    }
    assert Pow256(24) == 0x1_0000_0000 * Pow256(20) by {
      assert Pow256(22) == 256 * (256 * Pow256(20));
      assert Pow256(24) == 256 * (256 * Pow256(22));
    }
  }
}
