/** The four messages with a variable tail, as values and as bytes. */
module WireMessages {
  import opened BigEndian
  import opened WireFormat

  const CES_OK := 0

  datatype Written = Refused | Wrote(bytes: Bytes)

  datatype Result<T> = Failed | Read(message: T, sig: Bytes)

  predicate Wide(b: Bytes, n: nat) { |b| == n }

  predicate Number(v: nat, n: nat) { v < Pow256(n) }

  // ---- Cross-server transfer: the tail is the destination server, one length byte ----

  datatype CrossTransfer = CrossTransfer(
    originId: Bytes, serverId: Bytes, reqNonce: nat, destKey: Bytes, amount: nat, destServer: Bytes)

  predicate CrossTyped(m: CrossTransfer)
  {
    Wide(m.originId, 32) && Wide(m.serverId, 8) && Number(m.reqNonce, 4) && Wide(m.destKey, 32) && Number(m.amount, 8)
  }

  function CrossTail(f: seq<Bytes>): TailLen { if |f| == 6 then Len(Get(f[5])) else Throws }

  function CrossKind(): Kind { Kind(0x12, [32, 8, 4, 32, 8, 1], CrossTail) }

  function CrossFields(m: CrossTransfer): seq<Bytes>
  {
    [m.originId, m.serverId, Put(m.reqNonce, 4), m.destKey, Put(m.amount, 8), Put(|m.destServer|, 1)]
  }

  function WriteCross(m: CrossTransfer, sig: Bytes): Written
  {
    if |m.destServer| > 255 then Refused else Wrote(Encode(0x12, Packet(CrossFields(m), m.destServer, sig)))
  }

  function ReadCross(b: Bytes): Result<CrossTransfer>
  {
    match Parse(CrossKind(), b)
    case Thrown => Failed
    case Got(p) => if |p.fields| != 6 then Failed else Read(
      CrossTransfer(p.fields[0], p.fields[1], Get(p.fields[2]), p.fields[3], Get(p.fields[4]), p.tail), p.sig)
  }

  function CrossSize(m: CrossTransfer): nat { 85 + |m.destServer| }

  lemma CrossReadsBack(m: CrossTransfer, sig: Bytes)
    requires CrossTyped(m) && |sig| == SIG && |m.destServer| <= 255
    ensures ReadCross(Encode(0x12, Packet(CrossFields(m), m.destServer, sig))) == Read(m, sig)
  {
    Widths();
    GetPut(|m.destServer|, 1);
    EncodeParses(CrossKind(), Packet(CrossFields(m), m.destServer, sig));
    GetPut(m.reqNonce, 4);
    GetPut(m.amount, 8);
  }

  /** A cross transfer is refused when its server name is too long, and read back unchanged otherwise. */
  lemma CrossRoundTrip(m: CrossTransfer, sig: Bytes)
    requires CrossTyped(m) && |sig| == SIG
    ensures WriteCross(m, sig).Refused? <==> |m.destServer| > 255
    ensures WriteCross(m, sig).Wrote? ==>
      ReadCross(WriteCross(m, sig).bytes) == Read(m, sig) && |WriteCross(m, sig).bytes| == 1 + CrossSize(m) + SIG
  {
    if |m.destServer| <= 255 {
      CrossReadsBack(m, sig);
      EncodeSize(0x12, Packet(CrossFields(m), m.destServer, sig), [32, 8, 4, 32, 8, 1]);
      assert Total([32, 8, 1]) == 41;
    }
  }

  /** Bytes of the right size are the only bytes for what they say. */
  lemma CrossCanonical(b: Bytes)
    requires ReadCross(b).Read? && |b| == 1 + CrossSize(ReadCross(b).message) + SIG
    ensures WriteCross(ReadCross(b).message, ReadCross(b).sig) == Wrote(b)
  {
    var k := CrossKind();
    var p := Parse(k, b).packet;
    ParsedFields(k, b);
    GlueSize(p.fields, k.widths);
    assert Total(k.widths) == 85;
    ParsedEncodes(k, b);
    PutGet(p.fields[2]);
    PutGet(p.fields[4]);
    PutGet(p.fields[5]);
    GetBound(p.fields[5]);
    Widths();
    assert CrossFields(ReadCross(b).message) == p.fields;
  }

  // ---- Gossip: two length bytes, and a reader that takes at most 1024 ----

  const GOSSIP_MAX := 1024

  datatype Gossip = Gossip(
    originId: Bytes, serverId: Bytes, reqNonce: nat, authorId: Bytes, msgId: Bytes, dest: Bytes,
    budget: nat, time: nat, msg: Bytes)

  predicate GossipTyped(m: Gossip)
  {
    && Wide(m.originId, 32) && Wide(m.serverId, 8) && Number(m.reqNonce, 4) && Wide(m.authorId, 32)
    && Wide(m.msgId, 32) && Wide(m.dest, 32) && Number(m.budget, 8) && Number(m.time, 8)
  }

  const GossipWidths: seq<nat> := [32, 8, 4, 32, 32, 32, 8, 8, 2]

  function Clamped(n: nat): nat { if n > GOSSIP_MAX then GOSSIP_MAX else n }

  function GossipTail(f: seq<Bytes>): TailLen { if |f| == 9 then Len(Clamped(Get(f[8]))) else Throws }

  function GossipKind(): Kind { Kind(0x15, GossipWidths, GossipTail) }

  function GossipFields(m: Gossip): seq<Bytes>
  {
    [m.originId, m.serverId, Put(m.reqNonce, 4), m.authorId, m.msgId, m.dest,
     Put(m.budget, 8), Put(m.time, 8), Put(|m.msg|, 2)]
  }

  /** The length is cut to sixteen bits; the message is written whole. */
  function WriteGossip(m: Gossip, sig: Bytes): Bytes
  {
    Encode(0x15, Packet(GossipFields(m), m.msg, sig))
  }

  function ReadGossip(b: Bytes): Result<Gossip>
  {
    match Parse(GossipKind(), b)
    case Thrown => Failed
    case Got(p) => if |p.fields| != 9 then Failed else Read(GossipOf(p.fields, p.tail), p.sig)
  }

  function GossipSize(m: Gossip): nat { 158 + |m.msg| }

  lemma GossipTotal()
    ensures Total(GossipWidths) == 158
  {
    assert Total([8, 8, 2]) == 18;
    assert Total([32, 32, 32, 8, 8, 2]) == 114;
  }

  lemma GossipPacket(m: Gossip, sig: Bytes)
    requires GossipTyped(m) && |sig| == SIG && |m.msg| <= GOSSIP_MAX
    ensures Parse(GossipKind(), WriteGossip(m, sig)) == Got(Packet(GossipFields(m), m.msg, sig))
  {
    Widths();
    GetPut(|m.msg|, 2);
    EncodeParses(GossipKind(), Packet(GossipFields(m), m.msg, sig));
  }

  lemma GossipShortRoundTrip(m: Gossip, sig: Bytes)
    requires GossipTyped(m) && |sig| == SIG && |m.msg| <= GOSSIP_MAX
    ensures ReadGossip(WriteGossip(m, sig)) == Read(m, sig)
  {
    GossipPacket(m, sig);
    GetPut(m.reqNonce, 4);
    GetPut(m.budget, 8);
    GetPut(m.time, 8);
  }

  /**
   * A gossip comes back as it was written exactly when its message is within the limit; its size is
   * always as computed.
   */
  lemma GossipRoundTrip(m: Gossip, sig: Bytes)
    requires GossipTyped(m) && |sig| == SIG
    ensures ReadGossip(WriteGossip(m, sig)) == Read(m, sig) <==> |m.msg| <= GOSSIP_MAX
    ensures |WriteGossip(m, sig)| == 1 + GossipSize(m) + SIG
  {
    GlueSize(GossipFields(m), GossipWidths);
    GossipTotal();
    if |m.msg| <= GOSSIP_MAX {
      GossipShortRoundTrip(m, sig);
    } else if ReadGossip(WriteGossip(m, sig)).Read? {
      ParsedFields(GossipKind(), WriteGossip(m, sig));
    }
  }

  /** A gossip over the limit never passes the size test of whoever reads it. */
  lemma LongGossipIsDropped(m: Gossip, sig: Bytes)
    requires GossipTyped(m) && |sig| == SIG && |m.msg| > GOSSIP_MAX
    ensures var r := ReadGossip(WriteGossip(m, sig));
      r.Read? ==> |r.message.msg| <= GOSSIP_MAX && |WriteGossip(m, sig)| != 1 + GossipSize(r.message) + SIG
  {
    GossipRoundTrip(m, sig);
    if ReadGossip(WriteGossip(m, sig)).Read? { ParsedFields(GossipKind(), WriteGossip(m, sig)); }
  }

  /** The length field of a gossip on the wire. */
  function GossipLength(b: Bytes): nat
    requires |b| >= 159
  {
    Get(b[157..159])
  }

  lemma GossipLengthField(b: Bytes)
    requires |b| >= 159
    ensures Total(GossipWidths) == 158 && Cut(b[1..], GossipWidths)[8] == b[157..159]
  {
    GossipTotal();
    var f := Cut(b[1..], GossipWidths);
    GlueCut(b[1..], GossipWidths);
    var front, last := f[..8], f[8];
    assert f == front + [last];
    GlueSnoc(front, last);
    GlueSize(f, GossipWidths);
    assert Glue(f) == b[1..][..158];
    assert |Glue(front)| == 156;
    assert last == Glue(f)[156..];
    assert Glue(f)[156..] == b[157..159];
  }

  lemma {:induction false} GlueSnoc(front: seq<Bytes>, last: Bytes)
    ensures Glue(front + [last]) == Glue(front) + last
  {
    if front == [] {
      assert [] + [last] == [last] && [last][1..] == [];
      assert Glue([last]) == last + [];
    } else {
      assert (front + [last])[1..] == front[1..] + [last];
      GlueSnoc(front[1..], last);
    }
  }

  lemma GossipReadFields(b: Bytes)
    requires ReadGossip(b).Read?
    ensures |b| >= 159 && GossipTyped(ReadGossip(b).message) && |ReadGossip(b).sig| == SIG
    ensures |ReadGossip(b).message.msg| == Clamped(GossipLength(b))
  {
    var k := GossipKind();
    var f := Parse(k, b).packet.fields;
    GossipTotal();
    ParsedFields(k, b);
    GossipLengthField(b);
    assert |f[0]| == 32 && |f[1]| == 8 && |f[2]| == 4 && |f[3]| == 32 && |f[4]| == 32 && |f[5]| == 32;
    assert |f[6]| == 8 && |f[7]| == 8 && |f[8]| == 2;
    GetBound(f[2]);
    GetBound(f[6]);
    GetBound(f[7]);
  }

  function GossipOf(f: seq<Bytes>, msg: Bytes): Gossip
    requires |f| == 9
  {
    Gossip(f[0], f[1], Get(f[2]), f[3], f[4], f[5], Get(f[6]), Get(f[7]), msg)
  }

  lemma GossipFieldsBack(f: seq<Bytes>, msg: Bytes)
    requires Sized(f, GossipWidths) && |msg| == Get(f[8])
    ensures GossipFields(GossipOf(f, msg)) == f
  {
    assert |f[2]| == 4 && |f[6]| == 8 && |f[7]| == 8 && |f[8]| == 2;
    PutGet(f[2]);
    PutGet(f[6]);
    PutGet(f[7]);
    PutGet(f[8]);
  }

  lemma GossipShortCanonical(b: Bytes)
    requires ReadGossip(b).Read? && |b| == 1 + GossipSize(ReadGossip(b).message) + SIG
    requires GossipLength(b) <= GOSSIP_MAX
    ensures WriteGossip(ReadGossip(b).message, ReadGossip(b).sig) == b
  {
    var k := GossipKind();
    var p := Parse(k, b).packet;
    ParsedFields(k, b);
    GossipTotal();
    GlueSize(p.fields, GossipWidths);
    GossipLengthField(b);
    GossipFieldsBack(p.fields, p.tail);
    ParsedEncodes(k, b);
  }

  /** Bytes of the right size re-encode to themselves exactly when their length field is within the limit. */
  lemma GossipCanonical(b: Bytes)
    requires ReadGossip(b).Read? && |b| == 1 + GossipSize(ReadGossip(b).message) + SIG
    ensures WriteGossip(ReadGossip(b).message, ReadGossip(b).sig) == b <==> GossipLength(b) <= GOSSIP_MAX
  {
    if GossipLength(b) <= GOSSIP_MAX {
      GossipShortCanonical(b);
    } else {
      GossipReadFields(b);
      LengthShows(ReadGossip(b).message, ReadGossip(b).sig);
    }
  }

  /** What is written in the length field is the length, when it is within the limit. */
  lemma LengthShows(m: Gossip, sig: Bytes)
    requires GossipTyped(m) && |m.msg| <= GOSSIP_MAX && |sig| == SIG
    ensures |WriteGossip(m, sig)| >= 159 && GossipLength(WriteGossip(m, sig)) == |m.msg|
  {
    var b := WriteGossip(m, sig);
    GossipRoundTrip(m, sig);
    GossipPacket(m, sig);
    FieldsCut(GossipKind(), b);
    GossipLengthField(b);
    Widths();
    GetPut(|m.msg|, 2);
  }

  lemma FieldsCut(k: Kind, b: Bytes)
    requires Parse(k, b).Got?
    ensures |b| > Total(k.widths) && Parse(k, b).packet.fields == Cut(b[1..], k.widths)
  {
  }

  // ---- Bulk transfer: a counted list of items ----

  const MAX_ITEMS := 20

  datatype Item = Item(destKey: Bytes, amount: nat)

  datatype BulkTransfer = BulkTransfer(originId: Bytes, serverId: Bytes, reqNonce: nat, transfers: seq<Item>)

  predicate ItemTyped(i: Item) { Wide(i.destKey, 32) && Number(i.amount, 8) }

  predicate BulkTyped(m: BulkTransfer)
  {
    && Wide(m.originId, 32) && Wide(m.serverId, 8) && Number(m.reqNonce, 4)
    && forall i :: 0 <= i < |m.transfers| ==> ItemTyped(m.transfers[i])
  }

  const ItemWidths: seq<nat> := [32, 8]

  lemma ItemTotal()
    ensures Total(ItemWidths) == 40
  {
    assert Total([8]) == 8;
  }

  function ItemFields(i: Item): seq<Bytes> { [i.destKey, Put(i.amount, 8)] }

  function ItemOf(f: seq<Bytes>): Item
    requires |f| == 2
  {
    Item(f[0], Get(f[1]))
  }

  function ItemRecords(items: seq<Item>): (r: seq<seq<Bytes>>)
    ensures |r| == |items|
  {
    seq(|items|, i requires 0 <= i < |items| => ItemFields(items[i]))
  }

  function BulkTail(f: seq<Bytes>): TailLen
  {
    if |f| != 4 || Get(f[3]) > MAX_ITEMS then Throws else Len(40 * Get(f[3]))
  }

  function BulkKind(): Kind { Kind(0x01, [32, 8, 4, 1], BulkTail) }

  function BulkFields(m: BulkTransfer): seq<Bytes>
  {
    [m.originId, m.serverId, Put(m.reqNonce, 4), Put(|m.transfers|, 1)]
  }

  function WriteBulk(m: BulkTransfer, sig: Bytes): Written
  {
    if |m.transfers| > MAX_ITEMS then Refused
    else Wrote(Encode(0x01, Packet(BulkFields(m), GlueAll(ItemRecords(m.transfers)), sig)))
  }

  /** The items in a tail that holds whole ones. */
  function ItemsIn(tail: Bytes): (items: seq<Item>)
    ensures |items| == |tail| / 40
  {
    ItemTotal();
    var records := CutAll(tail, ItemWidths, |tail| / 40);
    seq(|records|, i requires 0 <= i < |records| => if |records[i]| == 2 then ItemOf(records[i]) else Item([], 0))
  }

  function ReadBulk(b: Bytes): Result<BulkTransfer>
  {
    match Parse(BulkKind(), b)
    case Thrown => Failed
    case Got(p) => if |p.fields| != 4 then Failed else Read(
      BulkTransfer(p.fields[0], p.fields[1], Get(p.fields[2]), ItemsIn(p.tail)), p.sig)
  }

  function BulkSize(m: BulkTransfer): nat { 45 + 40 * |m.transfers| }

  lemma ItemsRoundTrip(items: seq<Item>)
    requires forall i :: 0 <= i < |items| ==> ItemTyped(items[i])
    ensures |GlueAll(ItemRecords(items))| == 40 * |items| && ItemsIn(GlueAll(ItemRecords(items))) == items
  {
    var records := ItemRecords(items);
    ItemTotal();
    CutAllGlueAll(records, ItemWidths);
    forall i | 0 <= i < |items|
      ensures ItemOf(records[i]) == items[i]
    {
      assert ItemTyped(items[i]);
      GetPut(items[i].amount, 8);
    }
  }

  lemma ItemsCanonical(tail: Bytes, n: nat)
    requires |tail| == 40 * n
    ensures GlueAll(ItemRecords(ItemsIn(tail))) == tail
  {
    ItemTotal();
    assert |tail| / 40 == n;
    var records := CutAll(tail, ItemWidths, n);
    GlueAllCutAll(tail, ItemWidths, n);
    forall i | 0 <= i < n
      ensures ItemFields(ItemsIn(tail)[i]) == records[i]
    {
      assert Sized(records[i], ItemWidths);
      PutGet(records[i][1]);
    }
    assert ItemRecords(ItemsIn(tail)) == records;
  }

  lemma ItemsFirst(tail: Bytes)
    requires |tail| >= 40
    ensures ItemsIn(tail) == [Item(tail[..32], Get(tail[32..40]))] + ItemsIn(tail[40..])
  {
    ItemTotal();
    var n := |tail| / 40;
    assert |tail[40..]| / 40 == n - 1;
    var records := CutAll(tail, ItemWidths, n);
    assert records[0] == Cut(tail, ItemWidths) && records[1..] == CutAll(tail[40..], ItemWidths, n - 1);
    assert Cut(tail[32..], [8]) == [tail[32..][..8]] + Cut(tail[32..][8..], []);
    assert tail[32..][..8] == tail[32..40];
  }

  /** The reader's loop. */
  method GetItems(tail: Bytes, count: nat) returns (items: seq<Item>)
    requires |tail| == 40 * count
    ensures items == ItemsIn(tail)
  {
    items := [];
    var rest := tail;
    for i := 0 to count
      invariant |rest| == 40 * (count - i) && items + ItemsIn(rest) == ItemsIn(tail)
    {
      ItemsFirst(rest);
      items := items + [Item(rest[..32], Get(rest[32..40]))];
      rest := rest[40..];
    }
    assert ItemsIn(rest) == [];
  }

  /** The writer's loop. */
  method PutItems(items: seq<Item>) returns (out: Bytes)
    ensures out == GlueAll(ItemRecords(items))
  {
    out := [];
    assert items[..0] == [] && ItemRecords([]) == [];
    for i := 0 to |items|
      invariant out == GlueAll(ItemRecords(items[..i]))
    {
      ItemsLast(items[..i], items[i]);
      assert items[..i] + [items[i]] == items[..i + 1];
      out := out + items[i].destKey + Put(items[i].amount, 8);
    }
    assert items[..|items|] == items;
  }

  lemma ItemsLast(items: seq<Item>, last: Item)
    ensures GlueAll(ItemRecords(items + [last])) == GlueAll(ItemRecords(items)) + last.destKey + Put(last.amount, 8)
  {
    assert ItemRecords(items + [last]) == ItemRecords(items) + [ItemFields(last)];
    GlueAllSnoc(ItemRecords(items), ItemFields(last));
    GlueSnoc([], last.destKey);
    GlueSnoc([last.destKey], Put(last.amount, 8));
    assert [] + [last.destKey] == [last.destKey];
    assert ItemFields(last) == [last.destKey] + [Put(last.amount, 8)];
  }

  lemma {:induction false} GlueAllSnoc(records: seq<seq<Bytes>>, last: seq<Bytes>)
    ensures GlueAll(records + [last]) == GlueAll(records) + Glue(last)
  {
    if records == [] {
      assert [] + [last] == [last] && [last][1..] == [];
    } else {
      assert (records + [last])[1..] == records[1..] + [last];
      GlueAllSnoc(records[1..], last);
    }
  }

  /** A bulk transfer is refused when it has too many items, and read back unchanged otherwise. */
  lemma BulkRoundTrip(m: BulkTransfer, sig: Bytes)
    requires BulkTyped(m) && |sig| == SIG
    ensures WriteBulk(m, sig).Refused? <==> |m.transfers| > MAX_ITEMS
    ensures WriteBulk(m, sig).Wrote? ==>
      ReadBulk(WriteBulk(m, sig).bytes) == Read(m, sig) && |WriteBulk(m, sig).bytes| == 1 + BulkSize(m) + SIG
  {
    if |m.transfers| <= MAX_ITEMS {
      var p := Packet(BulkFields(m), GlueAll(ItemRecords(m.transfers)), sig);
      Widths();
      ItemsRoundTrip(m.transfers);
      GetPut(|m.transfers|, 1);
      EncodeParses(BulkKind(), p);
      GetPut(m.reqNonce, 4);
      GlueSize(p.fields, [32, 8, 4, 1]);
      assert Total([32, 8, 4, 1]) == 45;
    }
  }

  lemma BulkCanonical(b: Bytes)
    requires ReadBulk(b).Read? && |b| == 1 + BulkSize(ReadBulk(b).message) + SIG
    ensures WriteBulk(ReadBulk(b).message, ReadBulk(b).sig) == Wrote(b)
  {
    var k := BulkKind();
    var p := Parse(k, b).packet;
    ParsedFields(k, b);
    GlueSize(p.fields, k.widths);
    assert Total(k.widths) == 45;
    var n := Get(p.fields[3]);
    ItemsCanonical(p.tail, n);
    ParsedEncodes(k, b);
    PutGet(p.fields[2]);
    PutGet(p.fields[3]);
    assert BulkFields(ReadBulk(b).message) == p.fields;
  }

  // ---- Query result: a count one less than the entries, which only a success carries ----

  datatype Entry = Entry(key: Bytes, balance: int, nonce: nat, lastXferDest: Bytes, lastXferAmount: nat,
      lastXferTime: nat)

  datatype QueryResult = QueryResult(
    originId: Bytes, reqNonce: nat, queryId: Bytes, items: nat, rcode: nat, accounts: seq<Entry>)

  const TWO_63 := 0x8000_0000_0000_0000
  const TWO_64 := 0x1_0000_0000_0000_0000

  predicate EntryTyped(e: Entry)
  {
    && Wide(e.key, 32) && -TWO_63 <= e.balance < TWO_63 && Number(e.nonce, 4) && Wide(e.lastXferDest, 8)
    && Number(e.lastXferAmount, 8) && Number(e.lastXferTime, 4)
  }

  predicate QueryTyped(m: QueryResult)
  {
    && Wide(m.originId, 8) && Number(m.reqNonce, 4) && Wide(m.queryId, 8) && Number(m.items, 1) && Number(m.rcode, 1)
    && forall i :: 0 <= i < |m.accounts| ==> EntryTyped(m.accounts[i])
  }

  const EntryWidths: seq<nat> := [32, 8, 4, 8, 8, 4]

  lemma EntryTotal()
    ensures Total(EntryWidths) == 64
  {
    assert Total([8, 8, 4]) == 20;
  }

  /** Two's complement in 64 bits, and back. */
  function Unsigned(v: int): int { if v < 0 then v + TWO_64 else v }

  function Signed(u: nat): int { if u >= TWO_63 then u - TWO_64 else u }

  function EntryFields(e: Entry): seq<Bytes>
    requires EntryTyped(e)
  {
    [e.key, Put(Unsigned(e.balance), 8), Put(e.nonce, 4), e.lastXferDest, Put(e.lastXferAmount, 8),
        Put(e.lastXferTime, 4)]
  }

  function EntryOf(f: seq<Bytes>): Entry
    requires |f| == 6
  {
    Entry(f[0], Signed(Get(f[1])), Get(f[2]), f[3], Get(f[4]), Get(f[5]))
  }

  lemma EntryRoundTrip(e: Entry)
    requires EntryTyped(e)
    ensures Sized(EntryFields(e), EntryWidths) && EntryOf(EntryFields(e)) == e
  {
    Widths();
    GetPut(Unsigned(e.balance), 8);
    GetPut(e.nonce, 4);
    GetPut(e.lastXferAmount, 8);
    GetPut(e.lastXferTime, 4);
  }

  lemma EntryCanonical(f: seq<Bytes>)
    requires Sized(f, EntryWidths)
    ensures EntryTyped(EntryOf(f)) && EntryFields(EntryOf(f)) == f
  {
    assert |f[0]| == 32 && |f[1]| == 8 && |f[2]| == 4 && |f[3]| == 8 && |f[4]| == 8 && |f[5]| == 4;
    Widths();
    GetBound(f[1]);
    GetBound(f[2]);
    GetBound(f[4]);
    GetBound(f[5]);
    PutGet(f[1]);
    PutGet(f[2]);
    PutGet(f[4]);
    PutGet(f[5]);
  }

  function EntryRecords(entries: seq<Entry>): (r: seq<seq<Bytes>>)
    requires forall i :: 0 <= i < |entries| ==> EntryTyped(entries[i])
    ensures |r| == |entries|
  {
    seq(|entries|, i requires 0 <= i < |entries| => EntryFields(entries[i]))
  }

  function EntriesIn(tail: Bytes): (entries: seq<Entry>)
    ensures |entries| == |tail| / 64
  {
    EntryTotal();
    var records := CutAll(tail, EntryWidths, |tail| / 64);
    seq(|records|, i requires 0 <= i < |records| =>
      if |records[i]| == 6 then EntryOf(records[i]) else Entry([], 0, 0, [], 0, 0))
  }

  lemma EntriesRoundTrip(entries: seq<Entry>)
    requires forall i :: 0 <= i < |entries| ==> EntryTyped(entries[i])
    ensures |GlueAll(EntryRecords(entries))| == 64 * |entries| && EntriesIn(GlueAll(EntryRecords(entries))) == entries
  {
    var records := EntryRecords(entries);
    EntryTotal();
    forall i | 0 <= i < |entries|
      ensures Sized(records[i], EntryWidths) && EntryOf(records[i]) == entries[i]
    {
      EntryRoundTrip(entries[i]);
    }
    CutAllGlueAll(records, EntryWidths);
  }

  lemma EntriesCanonical(tail: Bytes, n: nat)
    requires |tail| == 64 * n
    ensures |EntriesIn(tail)| == n && forall i :: 0 <= i < n ==> EntryTyped(EntriesIn(tail)[i])
    ensures GlueAll(EntryRecords(EntriesIn(tail))) == tail
  {
    EntryTotal();
    assert |tail| / 64 == n;
    var records := CutAll(tail, EntryWidths, n);
    GlueAllCutAll(tail, EntryWidths, n);
    forall i | 0 <= i < n
      ensures EntryTyped(EntriesIn(tail)[i]) && EntryFields(EntriesIn(tail)[i]) == records[i]
    {
      assert Sized(records[i], EntryWidths);
      EntryCanonical(records[i]);
    }
    assert EntryRecords(EntriesIn(tail)) == records;
  }

  const QueryWidths: seq<nat> := [8, 4, 8, 1, 1]

  function QueryTail(f: seq<Bytes>): TailLen
  {
    if |f| != 5 then Throws else Len(if Get(f[4]) == CES_OK then 64 * (Get(f[3]) + 1) else 0)
  }

  function QueryKind(): Kind { Kind(0x02, QueryWidths, QueryTail) }

  /** The count that is written: set from the entries on success, as it stands otherwise. */
  function ItemsWritten(m: QueryResult): nat
  {
    if m.rcode == CES_OK && m.accounts != [] then (|m.accounts| - 1) % 256 else m.items
  }

  function QueryFields(m: QueryResult): seq<Bytes>
  {
    [m.originId, Put(m.reqNonce, 4), m.queryId, Put(ItemsWritten(m), 1), Put(m.rcode, 1)]
  }

  function QueryTailOf(m: QueryResult): Bytes
    requires QueryTyped(m)
  {
    if m.rcode == CES_OK then GlueAll(EntryRecords(m.accounts)) else []
  }

  function WriteQuery(m: QueryResult, sig: Bytes): Written
    requires QueryTyped(m)
  {
    if m.rcode == CES_OK && m.accounts == [] then Refused
    else Wrote(Encode(0x02, Packet(QueryFields(m), QueryTailOf(m), sig)))
  }

  function ReadQuery(b: Bytes): Result<QueryResult>
  {
    match Parse(QueryKind(), b)
    case Thrown => Failed
    case Got(p) => if |p.fields| != 5 then Failed else Read(
      QueryResult(p.fields[0], Get(p.fields[1]), p.fields[2], Get(p.fields[3]), Get(p.fields[4]),
          EntriesIn(p.tail)), p.sig)
  }

  function QuerySize(m: QueryResult): nat { 22 + if m.rcode == CES_OK then 64 * |m.accounts| else 0 }

  /** What the writer keeps: on success the count follows the entries, otherwise there are none. */
  function Kept(m: QueryResult): QueryResult
  {
    if m.rcode == CES_OK then m.(items := ItemsWritten(m)) else m.(accounts := [])
  }

  lemma QuerySized(m: QueryResult)
    requires QueryTyped(m)
    ensures Sized(QueryFields(m), QueryWidths)
  {
  }

  lemma QueryTailSize(m: QueryResult)
    requires QueryTyped(m)
    ensures |QueryTailOf(m)| == if m.rcode == CES_OK then 64 * |m.accounts| else 0
  {
    if m.rcode == CES_OK { EntriesRoundTrip(m.accounts); }
  }

  lemma ByteBack(v: nat)
    requires v < 256
    ensures Get(Put(v, 1)) == v
  {
    Widths();
    GetPut(v, 1);
  }

  /** The fields announce the length of the tail. */
  lemma QueryAnnounces(m: QueryResult)
    requires QueryTyped(m) && (m.rcode == CES_OK ==> 0 < |m.accounts| <= 256)
    ensures QueryTail(QueryFields(m)) == Len(|QueryTailOf(m)|)
  {
    Widths();
    QueryTailSize(m);
    ByteBack(ItemsWritten(m));
    ByteBack(m.rcode);
  }

  lemma QueryPacket(m: QueryResult, sig: Bytes)
    requires QueryTyped(m) && |sig| == SIG && (m.rcode == CES_OK ==> 0 < |m.accounts| <= 256)
    ensures Parse(QueryKind(), WriteQuery(m, sig).bytes) == Got(Packet(QueryFields(m), QueryTailOf(m), sig))
  {
    QuerySized(m);
    QueryAnnounces(m);
    EncodeParses(QueryKind(), Packet(QueryFields(m), QueryTailOf(m), sig));
  }

  lemma QueryShort(m: QueryResult, sig: Bytes)
    requires QueryTyped(m) && |sig| == SIG && (m.rcode == CES_OK ==> 0 < |m.accounts| <= 256)
    ensures ReadQuery(WriteQuery(m, sig).bytes) == Read(Kept(m), sig)
  {
    QueryPacket(m, sig);
    Widths();
    GetPut(ItemsWritten(m), 1);
    GetPut(m.rcode, 1);
    GetPut(m.reqNonce, 4);
    if m.rcode == CES_OK { EntriesRoundTrip(m.accounts); }
  }

  /**
   * A success without entries is refused.  Anything else comes back as `Kept` exactly when
   * the count fits its byte; the size is always as computed.
   */
  lemma QueryRoundTrip(m: QueryResult, sig: Bytes)
    requires QueryTyped(m) && |sig| == SIG
    ensures WriteQuery(m, sig).Refused? <==> m.rcode == CES_OK && m.accounts == []
    ensures WriteQuery(m, sig).Wrote? ==>
      && |WriteQuery(m, sig).bytes| == 1 + QuerySize(m) + SIG
      && (ReadQuery(WriteQuery(m, sig).bytes) == Read(Kept(m), sig) <==> m.rcode != CES_OK || |m.accounts| <= 256)
  {
    if WriteQuery(m, sig).Wrote? {
      QueryWrites(m, sig);
      if m.rcode != CES_OK || |m.accounts| <= 256 {
        QueryShort(m, sig);
      } else {
        QueryReadCount(WriteQuery(m, sig).bytes);
      }
    }
  }

  lemma QueryWrites(m: QueryResult, sig: Bytes)
    requires QueryTyped(m) && |sig| == SIG && WriteQuery(m, sig).Wrote?
    ensures |WriteQuery(m, sig).bytes| == 1 + QuerySize(m) + SIG
  {
    EntriesRoundTrip(m.accounts);
    EncodeSize(0x02, Packet(QueryFields(m), QueryTailOf(m), sig), QueryWidths);
    assert Total([8, 1, 1]) == 10;
  }

  /** A reader never takes more than 256 entries. */
  lemma QueryReadCount(b: Bytes)
    ensures ReadQuery(b).Read? ==> |ReadQuery(b).message.accounts| <= 256
  {
    if ReadQuery(b).Read? {
      var k := QueryKind();
      ParsedFields(k, b);
      var f := Parse(k, b).packet.fields;
      assert |f[3]| == 1;
      GetBound(f[3]);
      Widths();
    }
  }

  lemma QueryReadTyped(b: Bytes)
    requires ReadQuery(b).Read?
    ensures QueryTyped(ReadQuery(b).message) && |ReadQuery(b).sig| == SIG
    ensures var m := ReadQuery(b).message;
      |m.accounts| == (if m.rcode == CES_OK then m.items + 1 else 0)
  {
    var k := QueryKind();
    ParsedFields(k, b);
    var p := Parse(k, b).packet;
    var f := p.fields;
    assert |f[0]| == 8 && |f[1]| == 4 && |f[2]| == 8 && |f[3]| == 1 && |f[4]| == 1;
    GetBound(f[1]);
    GetBound(f[3]);
    GetBound(f[4]);
    EntriesCanonical(p.tail, if Get(f[4]) == CES_OK then Get(f[3]) + 1 else 0);
  }

  lemma QueryCanonical(b: Bytes)
    requires ReadQuery(b).Read? && |b| == 1 + QuerySize(ReadQuery(b).message) + SIG
    ensures QueryTyped(ReadQuery(b).message)
    ensures WriteQuery(ReadQuery(b).message, ReadQuery(b).sig) == Wrote(b)
  {
    var k := QueryKind();
    var p, m := Parse(k, b).packet, ReadQuery(b).message;
    QueryReadTyped(b);
    ParsedFields(k, b);
    var n := if m.rcode == CES_OK then m.items + 1 else 0;
    EntriesCanonical(p.tail, n);
    GlueSize(p.fields, QueryWidths);
    assert Total([8, 1, 1]) == 10;
    ParsedEncodes(k, b);
    PutGet(p.fields[1]);
    PutGet(p.fields[3]);
    PutGet(p.fields[4]);
    Widths();
    assert ItemsWritten(m) == m.items;
    assert QueryFields(m) == p.fields;
    assert n == 0 ==> p.tail == [];
  }
}
