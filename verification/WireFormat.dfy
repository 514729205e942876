/**
 * Signed packets: a code byte, fixed-width fields, a tail whose length the fields decide,
 * and a signature.
 */
module WireFormat {
  import opened BigEndian

  type Bytes = seq<byte>

  const SIG := 65

  // ---- Fixed-width fields ----

  function Glue(fields: seq<Bytes>): Bytes
  {
    if fields == [] then [] else fields[0] + Glue(fields[1..])
  }

  function Total(widths: seq<nat>): nat
  {
    if widths == [] then 0 else widths[0] + Total(widths[1..])
  }

  function Cut(buf: Bytes, widths: seq<nat>): (fields: seq<Bytes>)
    requires |buf| >= Total(widths)
    ensures |fields| == |widths|
  {
    if widths == [] then [] else [buf[..widths[0]]] + Cut(buf[widths[0]..], widths[1..])
  }

  ghost predicate Sized(fields: seq<Bytes>, widths: seq<nat>)
  {
    |fields| == |widths| && forall i :: 0 <= i < |fields| ==> |fields[i]| == widths[i]
  }

  lemma {:induction false} GlueSize(fields: seq<Bytes>, widths: seq<nat>)
    requires Sized(fields, widths)
    ensures |Glue(fields)| == Total(widths)
  {
    if fields != [] { GlueSize(fields[1..], widths[1..]); }
  }

  lemma {:induction false} CutGlue(fields: seq<Bytes>, widths: seq<nat>, more: Bytes)
    requires Sized(fields, widths)
    ensures |Glue(fields)| == Total(widths) && Cut(Glue(fields) + more, widths) == fields
  {
    GlueSize(fields, widths);
    if fields != [] {
      var buf := Glue(fields) + more;
      assert buf[..widths[0]] == fields[0];
      assert buf[widths[0]..] == Glue(fields[1..]) + more;
      CutGlue(fields[1..], widths[1..], more);
    }
  }

  lemma {:induction false} GlueCut(buf: Bytes, widths: seq<nat>)
    requires |buf| >= Total(widths)
    ensures Sized(Cut(buf, widths), widths) && Glue(Cut(buf, widths)) == buf[..Total(widths)]
  {
    if widths != [] {
      GlueCut(buf[widths[0]..], widths[1..]);
      assert Cut(buf, widths)[1..] == Cut(buf[widths[0]..], widths[1..]);
      assert buf[..Total(widths)] == buf[..widths[0]] + buf[widths[0]..][..Total(widths[1..])];
    }
  }

  // ---- Records: the same fields, several times ----

  function GlueAll(records: seq<seq<Bytes>>): Bytes
  {
    if records == [] then [] else Glue(records[0]) + GlueAll(records[1..])
  }

  function CutAll(buf: Bytes, widths: seq<nat>, count: nat): (records: seq<seq<Bytes>>)
    requires |buf| >= count * Total(widths)
    ensures |records| == count
  {
    if count == 0 then []
    else
      Once(count, Total(widths));
      [Cut(buf, widths)] + CutAll(buf[Total(widths)..], widths, count - 1)
  }

  lemma Once(count: nat, n: nat)
    requires count > 0
    ensures count * n == n + (count - 1) * n >= n
  {
  }

  ghost predicate AllSized(records: seq<seq<Bytes>>, widths: seq<nat>)
  {
    forall i :: 0 <= i < |records| ==> Sized(records[i], widths)
  }

  lemma {:induction false} CutAllGlueAll(records: seq<seq<Bytes>>, widths: seq<nat>)
    requires AllSized(records, widths)
    ensures |GlueAll(records)| == |records| * Total(widths)
    ensures CutAll(GlueAll(records), widths, |records|) == records
  {
    if records != [] {
      var rest := records[1..];
      CutAllGlueAll(rest, widths);
      CutGlue(records[0], widths, GlueAll(rest));
      Once(|records|, Total(widths));
      assert GlueAll(records)[Total(widths)..] == GlueAll(rest);
    }
  }

  lemma {:induction false} GlueAllCutAll(buf: Bytes, widths: seq<nat>, count: nat)
    requires |buf| == count * Total(widths)
    ensures AllSized(CutAll(buf, widths, count), widths) && GlueAll(CutAll(buf, widths, count)) == buf
  {
    if count > 0 {
      Once(count, Total(widths));
      var rest := buf[Total(widths)..];
      GlueAllCutAll(rest, widths, count - 1);
      GlueCut(buf, widths);
      assert CutAll(buf, widths, count)[1..] == CutAll(rest, widths, count - 1);
      assert buf == buf[..Total(widths)] + rest;
    }
  }

  // ---- Packets ----

  datatype TailLen = Throws | Len(n: nat)

  datatype Kind = Kind(op: byte, widths: seq<nat>, tail: seq<Bytes> -> TailLen)

  datatype Packet = Packet(fields: seq<Bytes>, tail: Bytes, sig: Bytes)

  datatype Parsed = Thrown | Got(packet: Packet)

  function Encode(op: byte, p: Packet): Bytes
  {
    [op] + Glue(p.fields) + p.tail + p.sig
  }

  /**
   * Reading runs off the end, finds another code, or refuses the fields: it throws. Bytes beyond the
   * signature stay unread.
   */
  function Parse(k: Kind, b: Bytes): Parsed
  {
    var head := 1 + Total(k.widths);
    if |b| < head || b[0] != k.op then Thrown
    else
      var fields := Cut(b[1..], k.widths);
      match k.tail(fields)
      case Throws => Thrown
      case Len(n) =>
        if |b| < head + n + SIG then Thrown
        else Got(Packet(fields, b[head..head + n], b[head + n..head + n + SIG]))
  }

  /** The size test made before a signature is checked. */
  predicate Exact(b: Bytes, p: Packet)
  {
    |b| == 1 + |Glue(p.fields)| + |p.tail| + SIG
  }

  lemma EncodeParses(k: Kind, p: Packet)
    requires Sized(p.fields, k.widths) && k.tail(p.fields) == Len(|p.tail|) && |p.sig| == SIG
    ensures Parse(k, Encode(k.op, p)) == Got(p) && Exact(Encode(k.op, p), p)
  {
    CutGlue(p.fields, k.widths, p.tail + p.sig);
    Pieces(k.op, Glue(p.fields), p.tail, p.sig);
  }

  lemma Pieces(op: byte, glued: Bytes, tail: Bytes, sig: Bytes)
    ensures var b := [op] + glued + tail + sig;
      && b[1..] == glued + (tail + sig)
      && b[1 + |glued|..1 + |glued| + |tail|] == tail
      && b[1 + |glued| + |tail|..1 + |glued| + |tail| + |sig|] == sig
  {
  }

  lemma ParsedEncodes(k: Kind, b: Bytes)
    requires Parse(k, b).Got? && Exact(b, Parse(k, b).packet)
    ensures Encode(k.op, Parse(k, b).packet) == b
  {
    var p := Parse(k, b).packet;
    GlueCut(b[1..], k.widths);
    var head := 1 + Total(k.widths);
    assert b == [b[0]] + b[1..][..Total(k.widths)] + b[head..head + |p.tail|] + b[head + |p.tail|..];
  }

  lemma ParsedFields(k: Kind, b: Bytes)
    requires Parse(k, b).Got?
    ensures Sized(Parse(k, b).packet.fields, k.widths) && |Parse(k, b).packet.sig| == SIG
    ensures k.tail(Parse(k, b).packet.fields) == Len(|Parse(k, b).packet.tail|)
    ensures Parse(k, b).packet.fields == Cut(b[1..], k.widths)
  {
    GlueCut(b[1..], k.widths);
  }

  lemma EncodeSize(op: byte, p: Packet, widths: seq<nat>)
    requires Sized(p.fields, widths) && |p.sig| == SIG
    ensures |Encode(op, p)| == 1 + Total(widths) + |p.tail| + SIG
  {
    GlueSize(p.fields, widths);
  }
}
