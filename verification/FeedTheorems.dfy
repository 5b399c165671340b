/** What the market-feed decoder promises about whole frames and about runs of frames. */
module FeedTheorems {
  import opened Bytes
  import opened Framing
  import opened MarketFeed
  import opened FeedDecoder

  // ----- decode inverts encode ---------------------------------------------

  type MarketItem = Item<Packet, u16, Header>

  /** A foreign message has an unknown code and declares exactly its own bytes, more than a header. */
  predicate ValidItem(i: MarketItem)
  {
    match i
    case Known(packet, _) => ValidPacket(packet)
    case Foreign(header, body) =>
      KnownSize(Market, header.code as byte) == 0 && header.length == 8 + |body| && |body| > 0
  }

  predicate AllValid(items: seq<MarketItem>)
  {
    forall i :: 0 <= i < |items| ==> ValidItem(items[i])
  }

  function Encode(i: MarketItem): seq<byte>
    requires ValidItem(i)
  {
    match i
    case Known(packet, declared) => WritePacket(packet, declared)
    case Foreign(header, body) => PutHeader(header, body)
  }

  function Encoded(items: seq<MarketItem>): (blocks: seq<seq<byte>>)
    requires AllValid(items)
    ensures |blocks| == |items| && forall i :: 0 <= i < |items| ==> blocks[i] == Encode(items[i])
  {
    seq(|items|, i requires 0 <= i < |items| => Encode(items[i]))
  }

  lemma EncodedIsWhole(i: MarketItem)
    requires ValidItem(i)
    ensures WholeBlock(Market, Encode(i))
    ensures PacketIn(Encode(i)) == if i.Known? then [i.packet] else []
  {
    hide ReadPacket, GetPayload, PutPayload;
    StepByHeader(Encode(i));
  }

  lemma {:induction false} EncodedFrame(items: seq<MarketItem>, tail: seq<byte>)
    requires AllValid(items) && |tail| < 8
    ensures AllWhole(Market, Encoded(items)) && WellFramed(Market, Frame(Encoded(items), tail))
    ensures Packets(Frame(Encoded(items), tail)) == Sent(items)
    decreases |items|
  {
    hide Encode, ReadPacket, KnownSize, WholeBlock, PacketIn, ValidItem;
    forall i | 0 <= i < |items| ensures WholeBlock(Market, Encoded(items)[i]) {
      EncodedIsWhole(items[i]);
    }
    FrameIsWell(Market, Encoded(items), tail);
    if items != [] {
      assert Encoded(items)[1..] == Encoded(items[1..]);
      EncodedIsWhole(items[0]);
      EncodedFrame(items[1..], tail);
    }
  }

  /**
   * Whatever is sent is what is decoded: the known packets, in order, every
   * field equal, under any declared lengths, with foreign messages anywhere
   * between them and fewer than eight bytes left over.
   */
  lemma {:induction false} DecodeInvertsEncode(items: seq<MarketItem>, tail: seq<byte>)
    requires AllValid(items) && |tail| < 8
    ensures Decode(Flat(Frame(Encoded(items), tail))) == Sent(items)
    ensures !Truncated(Scan(Market, Flat(Frame(Encoded(items), tail))))
  {
    hide Encode, Encoded, ReadPacket, KnownSize, WholeBlock, PacketIn, Frame, Packets, Sent, Flat, WellFramed, Truncated,
         AllValid, AllWhole;
    EncodedFrame(items, tail);
    FrameIsWell(Market, Encoded(items), tail);
    ScanOfFlat(Market, Frame(Encoded(items), tail));
  }

  lemma BlockIsEncoded(block: seq<byte>) returns (i: MarketItem)
    requires WholeBlock(Market, block)
    ensures ValidItem(i) && Encode(i) == block
  {
    hide ReadPacket, GetPayload, PutPayload;
    StepByHeader(block);
    var Front(header, body) := GetHeader(block);
    if KnownSize(Market, block[0]) != 0 {
      i := Known(ReadPacket(block), header.length);
      WriteRead(block);
    } else {
      i := Foreign(header, body);
      PutGetHeader(block);
    }
  }

  lemma {:induction false} BlocksAreEncoded(blocks: seq<seq<byte>>) returns (items: seq<MarketItem>)
    requires AllWhole(Market, blocks)
    ensures AllValid(items) && Encoded(items) == blocks
  {
    hide Encode, WholeBlock, ValidItem;
    items := [];
    for n := 0 to |blocks|
      invariant AllValid(items) && Encoded(items) == blocks[..n]
    {
      var item := BlockIsEncoded(blocks[n]);
      items := items + [item];
    }
    assert blocks[..|blocks|] == blocks;
  }

  /**
   * The converse: a frame decoded without truncation is the encoding of some
   * items, and what it yields is what those items carry. Nothing decoded is
   * an artefact of the decoder.
   */
  lemma {:induction false} WholeFrameIsEncoded(data: seq<byte>) returns (items: seq<MarketItem>, tail: seq<byte>)
    requires !Truncated(Scan(Market, data))
    ensures AllValid(items) && |tail| < 8
    ensures Flat(Frame(Encoded(items), tail)) == data && Decode(data) == Sent(items)
  {
    hide Encode, Encoded, ReadPacket, KnownSize, WholeBlock, PacketIn, Frame, Packets, Sent, Flat, WellFramed, Truncated,
         AllValid, AllWhole;
    ScanTiles(Market, data);
    var blocks;
    blocks, tail := TraceIsFrame(Market, Scan(Market, data));
    items := BlocksAreEncoded(blocks);
    EncodedFrame(items, tail);
  }

  // ----- what counts as a mismatch -----------------------------------------

  /** The two lengths a packet of this size may declare: with its header and without. */
  predicate IsItsSize(declared: u16, size: nat)
  {
    declared == size || declared + 8 == size
  }

  /** A packet sent alone counts as a mismatch exactly when it declares another length than its own or its body's. */
  lemma {:induction false} WhichLengthsMismatch(p: Packet, declared: u16)
    requires ValidPacket(p)
    ensures
      var b := WritePacket(p, declared);
      (ScanTiles(Market, b); Mismatches(Scan(Market, b))) == if IsItsSize(declared, |b|) then 0 else 1
  {
    hide ReadPacket, GetPayload, PutPayload, GetHeader;
    var b := WritePacket(p, declared);
    StepByHeader(b);
    ScanTiles(Market, b);
    assert b[0..] == b && b[..|b|] == b && b[|b|..] == [];
    assert Scan(Market, b) == Turn(b, Tail([]));
  }

  // ----- prefixes ----------------------------------------------------------

  function ReadAll(blocks: seq<seq<byte>>): seq<Packet>
    requires forall b :: b in blocks ==> |b| >= 8 && KnownSize(Market, b[0]) == |b|
  {
    seq(|blocks|, i requires 0 <= i < |blocks| => assert blocks[i] in blocks; ReadPacket(blocks[i]))
  }

  lemma {:induction false} PacketsAreReturned(t: Trace)
    requires WellFramed(Market, t)
    ensures forall b :: b in Returned(Market, t) ==> |b| >= 8 && KnownSize(Market, b[0]) == |b|
    ensures Packets(t) == ReadAll(Returned(Market, t))
  {
    hide ReadPacket, KnownSize, StepOf, Declared;
    if t.Turn? {
      WholeBlockSize(Market, t.block);
      PacketsAreReturned(t.next);
    }
  }

  /** Decoding any prefix of a frame returns a prefix of the frame's packets. */
  lemma PrefixDecodesToPrefix(data: seq<byte>, n: nat)
    requires n <= |data|
    ensures Decode(data[..n]) <= Decode(data)
  {
    hide ReadPacket, KnownSize, StepOf, Packets, Returned, WellFramed, Scan;
    PrefixIsSafe(Market, data, n);
    ScanTiles(Market, data[..n]);
    ScanTiles(Market, data);
    PacketsAreReturned(Scan(Market, data[..n]));
    PacketsAreReturned(Scan(Market, data));
  }

  // ----- counters over runs of frames --------------------------------------

  function Run(frames: seq<seq<byte>>): Stats
  {
    if frames == [] then ZERO else Count(Run(frames[..|frames| - 1]), frames[|frames| - 1])
  }

  /** Every packet a run of frames returned, in order. */
  function DecodeAll(frames: seq<seq<byte>>): seq<Packet>
  {
    if frames == [] then [] else DecodeAll(frames[..|frames| - 1]) + Decode(frames[|frames| - 1])
  }

  function Skipped(t: Trace): nat
  {
    if t.Turn? then (if IsKnown(Market, t.block) then 0 else 1) + Skipped(t.next) else 0
  }

  /** What one frame can add: bounds between its packets, its skips and its bytes. */
  lemma {:induction false} FrameBounds(t: Trace)
    requires WellFramed(Market, t)
    ensures 10 * |Packets(t)| + 9 * Skipped(t) <= |Flat(t)|
    ensures Mismatches(t) <= |Packets(t)| + if Truncated(t) then 1 else 0
    ensures Skipped(t) <= |Unknowns(t)| <= Skipped(t) + if Truncated(t) then 1 else 0
    ensures Mismatches(t) + |Unknowns(t)| <= |Packets(t)| + Skipped(t) + if Truncated(t) then 1 else 0
  {
    hide ReadPacket, StepOf, Declared, GetHeader;
    if t.Turn? {
      WholeBlockSize(Market, t.block);
      FrameBounds(t.next);
    }
  }

  predicate HasSeveral(data: seq<byte>)
  {
    |Decode(data)| >= 2
  }

  predicate IsTruncated(data: seq<byte>)
  {
    Truncated(Scan(Market, data))
  }

  /** The number of frames of which `p` holds. */
  function HowMany(frames: seq<seq<byte>>, p: seq<byte> -> bool): (n: nat)
    ensures n <= |frames|
  {
    if frames == [] then 0
    else HowMany(frames[..|frames| - 1], p) + if p(frames[|frames| - 1]) then 1 else 0
  }

  /**
   * Conservation over any run of frames: the counters are exactly the calls,
   * the packets handed back, the calls that handed back several and the calls
   * that stopped short. Mismatches stay inside what was seen.
   */
  lemma {:induction false} Conservation(frames: seq<seq<byte>>)
    ensures
      var s := Run(frames);
      && s.frames == |frames|
      && s.packets == |DecodeAll(frames)|
      && s.multiPacketFrames == HowMany(frames, HasSeveral)
      && s.truncated == HowMany(frames, IsTruncated) <= s.frames
      && s.lengthMismatches <= s.packets + s.truncated
  {
    hide Packets, Mismatches, Unknowns, Truncated, Scan, WellFramed, Flat;
    if frames != [] {
      var n := |frames| - 1;
      Conservation(frames[..n]);
      ScanTiles(Market, frames[n]);
      FrameBounds(Scan(Market, frames[n]));
    }
  }

  // ----- the declared length of a known packet does not matter -------------

  function Shift(s: set<nat>, n: nat): set<nat>
  {
    set i | i in s :: i + n
  }

  /** The positions of the length fields of known-code packets, as the loop meets them. */
  function LengthBytes(data: seq<byte>): set<nat>
    decreases |data|
  {
    if |data| < 8 then {}
    else
      var step := StepOf(Market, data);
      (if KnownSize(Market, data[0]) != 0 then {1, 2} else {})
      + if step.Stop? then {} else Shift(LengthBytes(data[step.size..]), step.size)
  }

  ghost predicate SameButLengths(a: seq<byte>, b: seq<byte>)
  {
    |a| == |b| && forall i :: 0 <= i < |a| && i !in LengthBytes(a) ==> a[i] == b[i]
  }

  lemma ReadIgnoresLength(a: seq<byte>, b: seq<byte>)
    requires |a| == |b| >= 8 && KnownSize(Market, a[0]) == |a|
    requires forall i :: 0 <= i < |a| && i != 1 && i != 2 ==> a[i] == b[i]
    ensures ReadPacket(a) == ReadPacket(b)
  {
    hide GetPayload;
    var x, y := GetHeader(a), GetHeader(b);
    assert x.rest == a[8..] && y.rest == b[8..];
    assert a[8..] == b[8..];
    assert x.value.(length := 0) == y.value.(length := 0);
  }

  lemma InShift(s: set<nat>, n: nat, i: nat)
    ensures i in Shift(s, n) <==> i >= n && i - n in s
  {
    if i >= n && i - n in s {
      assert (i - n) + n in Shift(s, n);
    }
  }

  /** Position `i` is a length byte of this header, or of what follows this block. */
  lemma LengthBytesSplit(data: seq<byte>, i: nat)
    requires |data| >= 8
    ensures
      var step := StepOf(Market, data);
      i in LengthBytes(data) <==>
        || (KnownSize(Market, data[0]) != 0 && (i == 1 || i == 2))
        || (!step.Stop? && i >= step.size && i - step.size in LengthBytes(data[step.size..]))
  {
    hide StepOf, KnownSize, Shift;
    var step := StepOf(Market, data);
    if !step.Stop? {
      InShift(LengthBytes(data[step.size..]), step.size, i);
    }
  }

  /** Both frames take the same step, over bytes that say the same. */
  lemma SameStep(a: seq<byte>, b: seq<byte>)
    requires SameButLengths(a, b) && |a| >= 8
    ensures StepOf(Market, a) == StepOf(Market, b)
    ensures a[0] == b[0] && UnknownIn(a) == UnknownIn(b)
    ensures !StepOf(Market, a).Stop? ==>
      var n := StepOf(Market, a).size;
      && WholeBlock(Market, a[..n]) && WholeBlock(Market, b[..n])
      && PacketIn(a[..n]) == PacketIn(b[..n]) && SameButLengths(a[n..], b[n..])
  {
    hide ReadPacket, GetHeader, LengthBytes;
    forall i: nat
      ensures i in LengthBytes(a) <==>
        || (KnownSize(Market, a[0]) != 0 && (i == 1 || i == 2))
        || (!StepOf(Market, a).Stop? && i >= StepOf(Market, a).size
            && i - StepOf(Market, a).size in LengthBytes(a[StepOf(Market, a).size..]))
    {
      LengthBytesSplit(a, i);
    }
    StepByHeader(a);
    StepByHeader(b);
    if KnownSize(Market, a[0]) == 0 {
      assert a[1] == b[1] && a[2] == b[2];
      LengthField(a, b);
    }
    var step := StepOf(Market, a);
    if !step.Stop? {
      var n := step.size;
      StepOfPrefix(Market, a[..n], a);
      StepOfPrefix(Market, b[..n], b);
      if step.Take? {
        ReadIgnoresLength(a[..n], b[..n]);
      }
      forall i | 0 <= i < |a[n..]| && i !in LengthBytes(a[n..])
        ensures a[n..][i] == b[n..][i]
      {
        assert (i + n) - n == i && i + n !in LengthBytes(a);
      }
    }
  }

  lemma LengthField(a: seq<byte>, b: seq<byte>)
    requires |a| >= 8 && |b| >= 8 && a[1] == b[1] && a[2] == b[2]
    ensures GetHeader(a).value.length == GetHeader(b).value.length
  {
  }

  /** The same packets, the same truncation and the same unknown codes. */
  ghost predicate SameButMismatches(a: seq<byte>, b: seq<byte>)
  {
    var t, u := Scan(Market, a), Scan(Market, b);
    ScanTiles(Market, a);
    ScanTiles(Market, b);
    Decode(a) == Decode(b) && Truncated(t) == Truncated(u) && Unknowns(t) == Unknowns(u)
  }

  lemma SameTurn(a: seq<byte>, b: seq<byte>, n: nat)
    requires |a| == |b| >= 8 && StepOf(Market, a) == StepOf(Market, b)
    requires StepOf(Market, a) == Take(n) || StepOf(Market, a) == Skip(n)
    requires n <= |a| && UnknownIn(a) == UnknownIn(b)
    requires WholeBlock(Market, a[..n]) && WholeBlock(Market, b[..n]) && PacketIn(a[..n]) == PacketIn(b[..n])
    requires SameButMismatches(a[n..], b[n..])
    ensures SameButMismatches(a, b)
  {
    hide Packets, Unknowns, Truncated, StepOf, WholeBlock, PacketIn, UnknownIn, WellFramed, Scan;
    assert a[0..] == a && b[0..] == b;
    NextTurn(a, 0, n);
    NextTurn(b, 0, n);
  }

  /**
   * Two frames that differ only in the length fields of known-code packets
   * decode to the same packets, the same truncation and the same unknown
   * codes. Only `length_mismatches` can tell them apart.
   */
  lemma {:induction false} LengthsDoNotMatter(a: seq<byte>, b: seq<byte>)
    requires SameButLengths(a, b)
    ensures SameButMismatches(a, b)
    decreases |a|
  {
    hide Packets, Unknowns, Truncated, StepOf, WholeBlock, PacketIn, UnknownIn, LengthBytes, WellFramed, Scan,
         SameButLengths;
    assert |a| == |b| by { SameSize(a, b); }
    if |a| < 8 {
      NoTurn(a);
      NoTurn(b);
    } else {
      SameStep(a, b);
      var step := StepOf(Market, a);
      if step.Stop? {
        LastTurn(a);
        LastTurn(b);
      } else {
        LengthsDoNotMatter(a[step.size..], b[step.size..]);
        SameTurn(a, b, step.size);
      }
    }
  }

  lemma SameSize(a: seq<byte>, b: seq<byte>)
    requires SameButLengths(a, b)
    ensures |a| == |b|
  {
  }
}
