/** The 20-level depth socket: another header on the same framing loop, with no counters. */
module DepthFeed {
  import opened Bytes
  import opened Framing

  type i16 = v: int | -0x8000 <= v < 0x8000
  type i32 = v: int | -0x8000_0000 <= v < 0x8000_0000

  const LEVELS: nat := 20

  datatype Side = Bid | Ask

  /** A price is an IEEE binary64 on this socket: its bit pattern. */
  datatype Level = Level(price: u64, quantity: u32, orders: u32)
  datatype Header = Header(length: i16, code: u8, segment: u8, securityId: i32, msgSeq: u32)
  datatype DepthPacket = DepthPacket(side: Side, segment: u8, securityId: i32, msgSeq: u32, levels: seq<Level>)

  predicate ValidPacket(p: DepthPacket)
  {
    |p.levels| == LEVELS
  }

  function CodeOf(side: Side): u8
  {
    if side.Bid? then 41 else 51
  }

  function GetHeader(s: seq<byte>): (f: Front<Header>)
    requires |s| >= 12
    ensures |f.rest| == |s| - 12
  {
    var length := Get16(s);
    var code := Get8(length.rest);
    var segment := Get8(code.rest);
    var id := Get32(segment.rest);
    var seqNo := Get32(id.rest);
    Front(Header(Signed(length.value, 0x8000), code.value, segment.value,
                 Signed(id.value, 0x8000_0000), seqNo.value), seqNo.rest)
  }

  function PutHeader(h: Header, rest: seq<byte>): (s: seq<byte>)
    ensures |s| == 12 + |rest| && GetHeader(s) == Front(h, rest)
  {
    Put16(Unsigned(h.length, 0x8000), Put8(h.code, Put8(h.segment,
      Put32(Unsigned(h.securityId, 0x8000_0000), Put32(h.msgSeq, rest)))))
  }

  function GetLevel(s: seq<byte>): (f: Front<Level>)
    requires |s| >= 16
    ensures |f.rest| == |s| - 16
  {
    var price := Get64(s);
    var quantity := Get32(price.rest);
    var orders := Get32(quantity.rest);
    Front(Level(price.value, quantity.value, orders.value), orders.rest)
  }

  function PutLevel(l: Level, rest: seq<byte>): (s: seq<byte>)
    ensures |s| == 16 + |rest| && GetLevel(s) == Front(l, rest)
  {
    Put64(l.price, Put32(l.quantity, Put32(l.orders, rest)))
  }

  function GetLevels(n: nat, s: seq<byte>): (levels: seq<Level>)
    requires |s| == 16 * n
    ensures |levels| == n
  {
    if n == 0 then [] else var l := GetLevel(s); [l.value] + GetLevels(n - 1, l.rest)
  }

  function PutLevels(levels: seq<Level>): (s: seq<byte>)
    ensures |s| == 16 * |levels|
  {
    if levels == [] then [] else PutLevel(levels[0], PutLevels(levels[1..]))
  }

  lemma {:induction false} LevelsRoundTrip(levels: seq<Level>)
    ensures GetLevels(|levels|, PutLevels(levels)) == levels
  {
    hide GetLevel, PutLevel;
    if levels != [] {
      LevelsRoundTrip(levels[1..]);
    }
  }

  function ReadPacket(s: seq<byte>): (p: DepthPacket)
    requires |s| == DEPTH20_SIZE
    ensures ValidPacket(p)
  {
    var Front(h, body) := GetHeader(s);
    DepthPacket(if h.code == 41 then Bid else Ask, h.segment, h.securityId, h.msgSeq, GetLevels(LEVELS, body))
  }

  function WritePacket(p: DepthPacket, declared: i16): (s: seq<byte>)
    requires ValidPacket(p)
    ensures |s| == DEPTH20_SIZE
  {
    PutHeader(Header(declared, CodeOf(p.side), p.segment, p.securityId, p.msgSeq), PutLevels(p.levels))
  }

  // ----- packets by the byte -----------------------------------------------

  lemma {:induction false} HeaderBytes(b: seq<byte>)
    requires |b| >= 12
    ensures
      var h := GetHeader(b).value;
      && h.length == (if U16At(b, 0) < 32768 then U16At(b, 0) else U16At(b, 0) - 65536)
      && h.code == b[2] as int && h.segment == b[3] as int
      && h.securityId == (if U32At(b, 4) < 2147483648 then U32At(b, 4) else U32At(b, 4) - 4294967296)
      && h.msgSeq == U32At(b, 8)
    ensures GetHeader(b).rest == b[12..]
  {
    hide Get32, Get16, U32At, U16At;
    Get16At(b, 0);
    Get32At(b, 4);
    Get32At(b, 8);
    assert b[0..] == b;
    assert b[2..][1..] == b[3..];
    assert b[3..][1..] == b[4..];
  }

  /** The level at an offset: a price of eight bytes, the least first, then a quantity and its orders. */
  function LevelAt(b: seq<byte>, at: nat): Level
    requires |b| >= at + 16
  {
    Level(U32At(b, at) + 4294967296 * U32At(b, at + 4), U32At(b, at + 8), U32At(b, at + 12))
  }

  lemma {:induction false} LevelBytes(b: seq<byte>, at: nat)
    requires |b| >= at + 16
    ensures GetLevel(b[at..]) == Front(LevelAt(b, at), b[at + 16..])
  {
    hide Get32, Get64, U32At;
    Get64At(b, at);
    Get32At(b, at + 8);
    Get32At(b, at + 12);
  }

  lemma {:induction false} LevelsBytes(b: seq<byte>, at: nat, n: nat)
    requires |b| == at + 16 * n
    ensures forall i :: 0 <= i < n ==> GetLevels(n, b[at..])[i] == LevelAt(b, at + 16 * i)
    decreases n
  {
    hide GetLevel, LevelAt;
    if n > 0 {
      LevelBytes(b, at);
      LevelsBytes(b, at + 16, n - 1);
      var levels := GetLevels(n, b[at..]);
      forall i | 0 < i < n ensures levels[i] == LevelAt(b, at + 16 * i) {
        assert levels[i] == GetLevels(n - 1, b[at + 16..])[i - 1];
        assert at + 16 + 16 * (i - 1) == at + 16 * i;
      }
    }
  }

  /**
   * A bid or an ask: its side by its code, a signed id, a sequence number, and
   * twenty levels of sixteen bytes, each a price, a quantity and its orders.
   */
  lemma {:induction false} DepthBytes(b: seq<byte>)
    requires |b| == 332 && (b[2] == 41 || b[2] == 51)
    ensures
      var p := ReadPacket(b);
      && (p.side.Bid? <==> b[2] == 41) && (p.side.Ask? <==> b[2] == 51)
      && p.segment == b[3] as int && p.msgSeq == U32At(b, 8)
      && p.securityId == (if U32At(b, 4) < 2147483648 then U32At(b, 4) else U32At(b, 4) - 4294967296)
      && |p.levels| == 20
      && forall i :: 0 <= i < 20 ==> p.levels[i] == LevelAt(b, 12 + 16 * i)
  {
    hide Get32, Get64, U32At, GetHeader, GetLevels, GetLevel, LevelAt;
    HeaderBytes(b);
    LevelsBytes(b, 12, 20);
  }

  // ----- the decoder -------------------------------------------------------

  function Packets(t: Trace): (packets: seq<DepthPacket>)
    requires WellFramed(Depth20, t)
  {
    if t.Turn? then PacketIn(t.block) + Packets(t.next) else []
  }

  function PacketIn(block: seq<byte>): (packets: seq<DepthPacket>)
    requires WholeBlock(Depth20, block)
  {
    if block[2] == 41 || block[2] == 51 then [ReadPacket(block)] else []
  }

  function Decode(data: seq<byte>): (packets: seq<DepthPacket>)
  {
    ScanTiles(Depth20, data);
    Packets(Scan(Depth20, data))
  }

  /** What the loop's branches test, in terms of the header fields. */
  lemma StepByHeader(here: seq<byte>)
    requires |here| >= 12
    ensures
      var h := GetHeader(here).value;
      && h.code == here[2] as int
      && StepOf(Depth20, here) ==
        if h.code != 41 && h.code != 51 then
          if h.length <= 12 || h.length > |here| then Stop else Skip(h.length)
        else if DEPTH20_SIZE > |here| then Stop else Take(DEPTH20_SIZE)
  {
  }

  lemma NoTurn(here: seq<byte>)
    requires |here| < 12 || StepOf(Depth20, here).Stop?
    ensures WellFramed(Depth20, Scan(Depth20, here)) && Packets(Scan(Depth20, here)) == []
  {
    hide StepOf;
  }

  lemma {:induction false} NextTurn(data: seq<byte>, at: nat, size: nat)
    requires at + 12 <= |data|
    requires StepOf(Depth20, data[at..]) == Take(size) || StepOf(Depth20, data[at..]) == Skip(size)
    ensures at + size <= |data| && WholeBlock(Depth20, data[at..at + size])
    ensures
      var t, next := Scan(Depth20, data[at..]), Scan(Depth20, data[at + size..]);
      && WellFramed(Depth20, t) && WellFramed(Depth20, next)
      && Packets(t) == PacketIn(data[at..at + size]) + Packets(next)
  {
    hide StepOf, KnownSize, ReadPacket;
    var here := data[at..];
    ScanTiles(Depth20, here);
    assert here[size..] == data[at + size..] && here[..size] == data[at..at + size];
  }

  /** `decode_depth20_frame`: bids and asks as they arrived, never paired. */
  method DecodeDepth20Frame(data: seq<byte>) returns (packets: seq<DepthPacket>)
    ensures packets == Decode(data)
  {
    hide ReadPacket, KnownSize, GetHeader, StepOf, Scan, WellFramed, Packets;
    packets := [];
    var offset, size := 0, |data|;
    ScanTiles(Depth20, data);
    assert data[0..] == data;

    while offset + 12 <= size
      invariant offset <= size
      invariant
        var rest := Scan(Depth20, data[offset..]);
        && WellFramed(Depth20, rest) && packets + Packets(rest) == Decode(data)
      decreases size - offset
    {
      StepByHeader(data[offset..]);
      var header := GetHeader(data[offset..]).value;

      if header.code != 41 && header.code != 51 {
        if header.length <= 12 || offset + header.length > size {
          NoTurn(data[offset..]);
          return;
        }
        NextTurn(data, offset, header.length);
        offset := offset + header.length;
        continue;
      }
      if offset + DEPTH20_SIZE > size {
        NoTurn(data[offset..]);
        return;
      }

      NextTurn(data, offset, DEPTH20_SIZE);
      packets := packets + [ReadPacket(data[offset..offset + DEPTH20_SIZE])];
      offset := offset + DEPTH20_SIZE;
    }
    NoTurn(data[offset..]);
  }

  // ----- writing back what was read ---------------------------------------

  lemma PutGetHeader(s: seq<byte>)
    requires |s| >= 12
    ensures PutHeader(GetHeader(s).value, GetHeader(s).rest) == s
  {
    hide Get32, Put32, Get16, Put16, Get8, Put8;
    var length := Get16(s);
    var code := Get8(length.rest);
    var segment := Get8(code.rest);
    var id := Get32(segment.rest);
    PutGet16(s);
    PutGet8(length.rest);
    PutGet8(code.rest);
    PutGet32(segment.rest);
    PutGet32(id.rest);
    UnsignedOfSigned(length.value, 0x8000);
    UnsignedOfSigned(id.value, 0x8000_0000);
  }

  lemma PutGetLevel(s: seq<byte>)
    requires |s| >= 16
    ensures PutLevel(GetLevel(s).value, GetLevel(s).rest) == s
  {
    hide Get64, Put64, Get32, Put32;
    var price := Get64(s);
    var quantity := Get32(price.rest);
    PutGet64(s);
    PutGet32(price.rest);
    PutGet32(quantity.rest);
  }

  lemma {:induction false} PutGetLevels(n: nat, s: seq<byte>)
    requires |s| == 16 * n
    ensures PutLevels(GetLevels(n, s)) == s
  {
    hide GetLevel, PutLevel;
    if n > 0 {
      PutGetLevel(s);
      PutGetLevels(n - 1, GetLevel(s).rest);
      assert GetLevels(n, s)[1..] == GetLevels(n - 1, GetLevel(s).rest);
    }
  }

  /** Every bid or ask on the wire is the writing of exactly one packet under one declared length. */
  lemma {:induction false} WriteRead(s: seq<byte>)
    requires |s| == DEPTH20_SIZE && (s[2] == 41 || s[2] == 51)
    ensures WritePacket(ReadPacket(s), GetHeader(s).value.length) == s
  {
    hide GetLevels, PutLevels;
    var Front(h, body) := GetHeader(s);
    PutGetHeader(s);
    PutGetLevels(LEVELS, body);
    assert h.code == s[2] as int;
  }

  // ----- decode inverts encode ---------------------------------------------

  type DepthItem = Item<DepthPacket, i16, Header>

  predicate ValidItem(i: DepthItem)
  {
    match i
    case Known(packet, _) => ValidPacket(packet)
    case Foreign(header, body) =>
      header.code != 41 && header.code != 51 && header.length == 12 + |body| && |body| > 0
  }

  predicate AllValid(items: seq<DepthItem>)
  {
    forall i :: 0 <= i < |items| ==> ValidItem(items[i])
  }

  function Encode(i: DepthItem): seq<byte>
    requires ValidItem(i)
  {
    match i
    case Known(packet, declared) => WritePacket(packet, declared)
    case Foreign(header, body) => PutHeader(header, body)
  }

  function Encoded(items: seq<DepthItem>): (blocks: seq<seq<byte>>)
    requires AllValid(items)
    ensures |blocks| == |items| && forall i :: 0 <= i < |items| ==> blocks[i] == Encode(items[i])
  {
    seq(|items|, i requires 0 <= i < |items| => Encode(items[i]))
  }

  lemma {:induction false} EncodedIsWhole(i: DepthItem)
    requires ValidItem(i)
    ensures WholeBlock(Depth20, Encode(i))
    ensures PacketIn(Encode(i)) == if i.Known? then [i.packet] else []
  {
    hide GetLevels, PutLevels;
    StepByHeader(Encode(i));
    if i.Known? {
      LevelsRoundTrip(i.packet.levels);
    }
  }

  lemma {:induction false} EncodedFrame(items: seq<DepthItem>, tail: seq<byte>)
    requires AllValid(items) && |tail| < 12
    ensures AllWhole(Depth20, Encoded(items)) && WellFramed(Depth20, Frame(Encoded(items), tail))
    ensures Packets(Frame(Encoded(items), tail)) == Sent(items)
    decreases |items|
  {
    hide Encode, ReadPacket, KnownSize, WholeBlock, PacketIn, ValidItem;
    forall i | 0 <= i < |items| ensures WholeBlock(Depth20, Encoded(items)[i]) {
      EncodedIsWhole(items[i]);
    }
    FrameIsWell(Depth20, Encoded(items), tail);
    if items != [] {
      assert Encoded(items)[1..] == Encoded(items[1..]);
      EncodedIsWhole(items[0]);
      EncodedFrame(items[1..], tail);
    }
  }

  /** Bids and asks come back in order, every level and sequence number equal, nothing dropped. */
  lemma {:induction false} DecodeInvertsEncode(items: seq<DepthItem>, tail: seq<byte>)
    requires AllValid(items) && |tail| < 12
    ensures Decode(Flat(Frame(Encoded(items), tail))) == Sent(items)
    ensures !Truncated(Scan(Depth20, Flat(Frame(Encoded(items), tail))))
  {
    hide Encode, Encoded, ReadPacket, KnownSize, WholeBlock, PacketIn, Frame, Packets, Sent, Flat, WellFramed, Truncated,
         AllValid, AllWhole;
    EncodedFrame(items, tail);
    FrameIsWell(Depth20, Encoded(items), tail);
    ScanOfFlat(Depth20, Frame(Encoded(items), tail));
  }

  lemma {:induction false} BlockIsEncoded(block: seq<byte>) returns (i: DepthItem)
    requires WholeBlock(Depth20, block)
    ensures ValidItem(i) && Encode(i) == block
  {
    hide ReadPacket;
    StepByHeader(block);
    var Front(header, body) := GetHeader(block);
    if block[2] == 41 || block[2] == 51 {
      i := Known(ReadPacket(block), header.length);
      WriteRead(block);
    } else {
      i := Foreign(header, body);
      PutGetHeader(block);
    }
  }

  lemma {:induction false} BlocksAreEncoded(blocks: seq<seq<byte>>) returns (items: seq<DepthItem>)
    requires AllWhole(Depth20, blocks)
    ensures AllValid(items) && Encoded(items) == blocks
  {
    hide Encode, WholeBlock, ValidItem;
    items := [];
    for n := 0 to |blocks|
      invariant AllValid(items) && Encoded(items) == blocks[..n]
    {
      var item := BlockIsEncoded(blocks[n]);
      items := items + [item];
    }
    assert blocks[..|blocks|] == blocks;
  }

  /** Conversely, a frame read to its end is the encoding of what it yields and of what was skipped. */
  lemma {:induction false} WholeFrameIsEncoded(data: seq<byte>) returns (items: seq<DepthItem>, tail: seq<byte>)
    requires !Truncated(Scan(Depth20, data))
    ensures AllValid(items) && |tail| < 12
    ensures Flat(Frame(Encoded(items), tail)) == data && Decode(data) == Sent(items)
  {
    hide Encode, Encoded, ReadPacket, KnownSize, WholeBlock, PacketIn, Frame, Packets, Sent, Flat, WellFramed, Truncated,
         AllValid, AllWhole;
    ScanTiles(Depth20, data);
    var blocks;
    blocks, tail := TraceIsFrame(Depth20, Scan(Depth20, data));
    items := BlocksAreEncoded(blocks);
    EncodedFrame(items, tail);
  }
}
