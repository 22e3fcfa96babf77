/** UTF-8, as defined in section 3 of RFC 3629: every string has one encoding, and it decodes to the string. */
module Utf8 {
  import opened Values

  predicate IsScalar(n: int)
  {
    0 <= n < 0xD800 || 0xE000 <= n < 0x11_0000
  }

  function EncodeChar(c: char): (bytes: seq<byte>)
    ensures bytes != []
  {
    var n := c as int;
    if n < 0x80 then [n]
    else if n < 0x800 then [0xC0 + n / 64, 0x80 + n % 64]
    else if n < 0x1_0000 then [0xE0 + n / 64 / 64, 0x80 + n / 64 % 64, 0x80 + n % 64]
    else [0xF0 + n / 64 / 64 / 64, 0x80 + n / 64 / 64 % 64, 0x80 + n / 64 % 64, 0x80 + n % 64]
  }

  function Encode(s: string): seq<byte>
  {
    if s == [] then [] else EncodeChar(s[0]) + Encode(s[1..])
  }

  /** The six bits of a continuation byte, if b is one. */
  function Tail(bytes: seq<byte>, i: nat): Option<int>
  {
    if i < |bytes| && 0x80 <= bytes[i] < 0xC0 then Some(bytes[i] - 0x80) else None
  }

  /** A code point that is a scalar value and needs all the bytes it was spelled with. */
  function Accept(n: int, least: int, rest: seq<byte>): (r: Option<(char, seq<byte>)>)
  {
    if least <= n && IsScalar(n) then Some((n as char, rest)) else None
  }

  /** The first character of a buffer and the bytes behind it; None for anything malformed. */
  function TakeChar(bytes: seq<byte>): (r: Option<(char, seq<byte>)>)
    ensures r.Some? ==> |r.value.1| < |bytes|
  {
    if bytes == [] then None
    else
      var lead, a, b, c := bytes[0], Tail(bytes, 1), Tail(bytes, 2), Tail(bytes, 3);
      if lead < 0x80 then Accept(lead, 0, bytes[1..])
      else if 0xC0 <= lead < 0xE0 && a.Some? then Accept((lead - 0xC0) * 64 + a.value, 0x80, bytes[2..])
      else if 0xE0 <= lead < 0xF0 && a.Some? && b.Some? then
        Accept((lead - 0xE0) * 4096 + a.value * 64 + b.value, 0x800, bytes[3..])
      else if 0xF0 <= lead < 0xF8 && a.Some? && b.Some? && c.Some? then
        Accept((lead - 0xF0) * 262144 + a.value * 4096 + b.value * 64 + c.value, 0x1_0000, bytes[4..])
      else None
  }

  function Decode(bytes: seq<byte>): Option<string>
    decreases |bytes|
  {
    if bytes == [] then Some([])
    else
      var first := TakeChar(bytes);
      if first.None? then None
      else
        var more := Decode(first.value.1);
        if more.None? then None else Some([first.value.0] + more.value)
  }

  lemma LowDigit(n: nat)
    ensures n == n / 64 * 64 + n % 64 && 0 <= n % 64 < 64
  {
  }

  lemma CharReadsBack(c: char, rest: seq<byte>)
    ensures TakeChar(EncodeChar(c) + rest) == Some((c, rest))
  {
    var n, buf := c as int, EncodeChar(c) + rest;
    LowDigit(n);
    LowDigit(n / 64);
    LowDigit(n / 64 / 64);
    if n < 0x80 {
      assert buf[1..] == rest;
    } else if n < 0x800 {
      assert buf[2..] == rest;
    } else if n < 0x1_0000 {
      assert buf[3..] == rest;
    } else {
      assert buf[4..] == rest;
    }
  }

  /** Encoding loses nothing: every string is read back whole. */
  lemma {:induction false} RoundTrip(s: string)
    ensures Decode(Encode(s)) == Some(s)
  {
    hide TakeChar, EncodeChar;
    if s != [] {
      CharReadsBack(s[0], Encode(s[1..]));
      RoundTrip(s[1..]);
      assert [s[0]] + s[1..] == s;
    }
  }

  /** One character of each length, byte by byte. */
  lemma CharBytes()
    ensures EncodeChar('$') == [0x24] && EncodeChar('\U{00A3}') == [0xC2, 0xA3]
    ensures EncodeChar('\U{20AC}') == [0xE2, 0x82, 0xAC] && EncodeChar('\U{10348}') == [0xF0, 0x90, 0x8D, 0x88]
  {
  }
}
