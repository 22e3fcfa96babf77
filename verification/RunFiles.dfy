/** Run files of the external sort: a fixed-width record count, then length-framed records. */
module RunFiles {
  import opened Values

  datatype Entry = Entry(keys: Row, payload: Row)

  type File = seq<byte>

  /** A record encoding, with the rows it can represent. */
  datatype Codec = Codec(encode: Row -> seq<byte>, decode: seq<byte> -> Option<Row>, encodable: Row -> bool)

  /** Every row the encoding can represent decodes to itself. */
  ghost predicate Lossless(c: Codec)
  {
    forall r :: c.encodable(r) ==> c.decode(c.encode(r)) == Some(r)
  }

  // ---------- Little-endian integers ----------

  function Pow256(w: nat): (r: nat)
    ensures r > 0
  {
    if w == 0 then 1 else 256 * Pow256(w - 1)
  }

  function ToLe(n: nat, w: nat): (bytes: seq<byte>)
    ensures |bytes| == w
  {
    if w == 0 then [] else [n % 256] + ToLe(n / 256, w - 1)
  }

  function FromLe(bytes: seq<byte>): nat
  {
    if bytes == [] then 0 else bytes[0] + 256 * FromLe(bytes[1..])
  }

  lemma {:induction false} LeRoundTrip(n: nat, w: nat)
    requires n < Pow256(w)
    ensures FromLe(ToLe(n, w)) == n
  {
    if w > 0 {
      LeRoundTrip(n / 256, w - 1);
      assert ToLe(n, w)[1..] == ToLe(n / 256, w - 1);
    }
  }

  const U32_LIMIT: nat := 0x1_0000_0000
  const U64_LIMIT: nat := 0x1_0000_0000_0000_0000

  lemma Widths()
    ensures Pow256(4) == U32_LIMIT && Pow256(8) == U64_LIMIT
  {
    assert Pow256(2) == 65536;
    assert Pow256(4) == 256 * (256 * Pow256(2));
    assert Pow256(6) == 256 * (256 * Pow256(4));
    assert Pow256(8) == 256 * (256 * Pow256(6));
  }

  /** The lowest byte comes first. */
  lemma LowByteFirst()
    ensures ToLe(0x0403_0201, 4) == [1, 2, 3, 4]
  {
    assert ToLe(0x0403, 2) == [3, 4] by { assert ToLe(4, 1) == [4]; }
    assert ToLe(0x0403_02, 3) == [2, 3, 4];
  }

  // ---------- What a file says ----------

  function Frame(bytes: seq<byte>): seq<byte>
  {
    ToLe(|bytes|, 4) + bytes
  }

  function Record(c: Codec, e: Entry): seq<byte>
  {
    Frame(c.encode(e.keys)) + Frame(c.encode(e.payload))
  }

  function Records(c: Codec, es: seq<Entry>): seq<byte>
  {
    if es == [] then [] else Records(c, es[..|es| - 1]) + Record(c, es[|es| - 1])
  }

  /** A run file is the count of its records and the records. */
  function FileOf(c: Codec, es: seq<Entry>): File
  {
    ToLe(|es|, 8) + Records(c, es)
  }

  /** Both parts of the entry fit a frame. */
  predicate Fits(c: Codec, e: Entry)
  {
    |c.encode(e.keys)| < U32_LIMIT && |c.encode(e.payload)| < U32_LIMIT
  }

  predicate AllFit(c: Codec, es: seq<Entry>)
  {
    forall i :: 0 <= i < |es| ==> Fits(c, es[i])
  }

  /** The entry fits its frames and the encoding can represent it. */
  predicate Storable(c: Codec, e: Entry)
  {
    Fits(c, e) && c.encodable(e.keys) && c.encodable(e.payload)
  }

  predicate AllStorable(c: Codec, es: seq<Entry>)
  {
    forall i :: 0 <= i < |es| ==> Storable(c, es[i])
  }

  lemma RecordsPush(c: Codec, es: seq<Entry>, e: Entry)
    ensures Records(c, es + [e]) == Records(c, es) + Record(c, e)
  {
    assert (es + [e])[..|es|] == es;
  }

  lemma {:induction false} RecordsFront(c: Codec, es: seq<Entry>)
    requires es != []
    ensures Records(c, es) == Record(c, es[0]) + Records(c, es[1..])
  {
    var front, last := es[..|es| - 1], es[|es| - 1];
    RecordsPush(c, front, last);
    assert es == front + [last];
    if front == [] {
      assert es[1..] == [];
    } else {
      RecordsFront(c, front);
      RecordsPush(c, front[1..], last);
      hide Records, Record;
      assert es[1..] == front[1..] + [last];
    }
  }

  // ---------- Writing ----------

  /** Appends one framed value; fails exactly at the 4 GiB frame limit. */
  method WriteFramed(c: Codec, file: File, value: Row) returns (out: Option<File>)
    ensures out.None? <==> |c.encode(value)| >= U32_LIMIT
    ensures out.Some? ==> out.value == file + Frame(c.encode(value))
  {
    var bytes := c.encode(value);
    if |bytes| >= U32_LIMIT {
      return None;
    }
    assert file + ToLe(|bytes|, 4) + bytes == file + Frame(bytes);
    out := Some(file + ToLe(|bytes|, 4) + bytes);
  }

  method WriteEntry(c: Codec, file: File, e: Entry) returns (out: Option<File>)
    ensures out.None? <==> !Fits(c, e)
    ensures out.Some? ==> out.value == file + Record(c, e)
  {
    out := WriteFramed(c, file, e.keys);
    if out.Some? {
      var keys := out.value;
      out := WriteFramed(c, keys, e.payload);
      assert out.Some? ==> out.value == file + Record(c, e);
    }
  }

  /** Writes a sorted buffer as a run file. */
  method WriteRun(c: Codec, buffer: seq<Entry>) returns (out: Option<File>)
    requires |buffer| < U64_LIMIT
    ensures out.None? <==> !AllFit(c, buffer)
    ensures out.Some? ==> out.value == FileOf(c, buffer)
  {
    hide Record, Fits;
    var file := ToLe(|buffer|, 8);
    assert buffer[..0] == [];
    for n := 0 to |buffer|
      invariant file == ToLe(|buffer|, 8) + Records(c, buffer[..n]) && AllFit(c, buffer[..n])
    {
      var more := WriteEntry(c, file, buffer[n]);
      if more.None? {
        return None;
      }
      assert buffer[..n + 1][..n] == buffer[..n];
      file := more.value;
    }
    assert buffer[..|buffer|] == buffer;
    out := Some(file);
  }

  /** Overwrites the leading count of a file and nothing else. */
  method PatchCount(file: File, count: nat) returns (out: File)
    requires |file| >= 8 && count < U64_LIMIT
    ensures out == ToLe(count, 8) + file[8..]
  {
    out := ToLe(count, 8) + file[8..];
  }

  // ---------- Reading ----------

  /** Reads one framed value at pos: the value and the position after it; None on a short or bad frame. */
  function ReadFramed(c: Codec, file: File, pos: nat): Option<(Row, nat)>
  {
    if pos + 4 > |file| then None
    else
      var len := FromLe(file[pos..pos + 4]);
      if pos + 4 + len > |file| then None
      else
        var v := c.decode(file[pos + 4..pos + 4 + len]);
        if v.None? then None else Some((v.value, pos + 4 + len))
  }

  /** A frame reads back as what was written, and reading stops exactly behind it. */
  lemma FrameReadsBack(c: Codec, file: File, pos: nat, value: Row, rest: seq<byte>)
    requires Lossless(c) && c.encodable(value) && |c.encode(value)| < U32_LIMIT
    requires pos <= |file| && file[pos..] == Frame(c.encode(value)) + rest
    ensures var r := ReadFramed(c, file, pos);
            r.Some? && r.value.0 == value && r.value.1 <= |file| && file[r.value.1..] == rest
  {
    var bytes := c.encode(value);
    assert |file| - pos == 4 + |bytes| + |rest|;
    assert file[pos..pos + 4] == file[pos..][..4] == ToLe(|bytes|, 4);
    Widths();
    LeRoundTrip(|bytes|, 4);
    var len := |bytes|;
    assert file[pos + 4..pos + 4 + len] == file[pos..][4..4 + len] == bytes;
    assert file[pos + 4 + len..] == file[pos..][4 + len..] == rest;
  }

  /** An open run: its file, the read position, the peeked entry and how many records remain. */
  datatype Run = Run(file: File, pos: nat, peeked: Option<Entry>, remaining: nat)

  function Advance(c: Codec, run: Run): Option<Run>
  {
    if run.remaining == 0 then Some(run.(peeked := None))
    else
      var keys := ReadFramed(c, run.file, run.pos);
      if keys.None? then None
      else
        var payload := ReadFramed(c, run.file, keys.value.1);
        if payload.None? then None
        else Some(Run(run.file, payload.value.1, Some(Entry(keys.value.0, payload.value.0)), run.remaining - 1))
  }

  function Open(c: Codec, file: File): Option<Run>
  {
    if |file| < 8 then None else Advance(c, Run(file, 8, None, FromLe(file[..8])))
  }

  /** The run still has exactly the entries es to read. */
  ghost predicate Holds(c: Codec, run: Run, es: seq<Entry>)
  {
    run.pos <= |run.file| && run.file[run.pos..] == Records(c, es) && run.remaining == |es| && AllStorable(c, es)
  }

  /** The run has peeked at the first of es and holds the others. */
  ghost predicate Peeks(c: Codec, run: Run, es: seq<Entry>)
  {
    if es == [] then run.peeked == None && Holds(c, run, [])
    else run.peeked == Some(es[0]) && Holds(c, run, es[1..])
  }

  lemma AdvancePeeks(c: Codec, run: Run, es: seq<Entry>)
    requires Lossless(c) && Holds(c, run, es)
    ensures Advance(c, run).Some? && Peeks(c, Advance(c, run).value, es)
  {
    if es != [] {
      RecordsFront(c, es);
      var e, rest := es[0], Records(c, es[1..]);
      var after := Frame(c.encode(e.payload)) + rest;
      assert run.file[run.pos..] == Frame(c.encode(e.keys)) + after;
      FrameReadsBack(c, run.file, run.pos, e.keys, after);
      FrameReadsBack(c, run.file, ReadFramed(c, run.file, run.pos).value.1, e.payload, rest);
    }
  }

  /** A file written from es opens at the first of es. */
  lemma OpenPeeks(c: Codec, es: seq<Entry>)
    requires Lossless(c) && AllStorable(c, es) && |es| < U64_LIMIT
    ensures Open(c, FileOf(c, es)).Some? && Peeks(c, Open(c, FileOf(c, es)).value, es)
  {
    var file := FileOf(c, es);
    Widths();
    LeRoundTrip(|es|, 8);
    assert file[..8] == ToLe(|es|, 8) && file[8..] == Records(c, es);
    AdvancePeeks(c, Run(file, 8, None, |es|), es);
  }

  // ---------- Reading everything back ----------

  /** All entries of a run, read one after the other; None when a read fails. */
  function Drain(c: Codec, run: Run): Option<seq<Entry>>
    decreases run.remaining + (if run.peeked.Some? then 1 else 0)
  {
    if run.peeked.None? then Some([])
    else
      var next := Advance(c, run);
      if next.None? then None
      else
        var rest := Drain(c, next.value);
        if rest.None? then None else Some([run.peeked.value] + rest.value)
  }

  lemma {:induction false} DrainReads(c: Codec, run: Run, es: seq<Entry>)
    requires Lossless(c) && Peeks(c, run, es)
    ensures Drain(c, run) == Some(es)
    decreases |es|
  {
    if es != [] {
      AdvancePeeks(c, run, es[1..]);
      DrainReads(c, Advance(c, run).value, es[1..]);
      hide Advance, Holds;
      assert [es[0]] + es[1..] == es;
    }
  }

  /** What was written is what is read: every entry, in order, and nothing more. */
  lemma RunRoundTrip(c: Codec, es: seq<Entry>)
    requires Lossless(c) && AllStorable(c, es) && |es| < U64_LIMIT
    ensures Open(c, FileOf(c, es)).Some? && Drain(c, Open(c, FileOf(c, es)).value) == Some(es)
  {
    OpenPeeks(c, es);
    DrainReads(c, Open(c, FileOf(c, es)).value, es);
  }
}
