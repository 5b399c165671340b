/** The counting decoder of the market feed, and what it does to whole frames and runs of frames. */
module FeedDecoder {
  import opened Bytes
  import opened Framing
  import opened MarketFeed

  // ----- what a frame means ------------------------------------------------

  /** The packets of a frame. */
  function Packets(t: Trace): (packets: seq<Packet>)
    requires WellFramed(Market, t)
  {
    if t.Turn? then PacketIn(t.block) + Packets(t.next) else []
  }

  function PacketIn(block: seq<byte>): (packets: seq<Packet>)
    requires WholeBlock(Market, block)
  {
    if KnownSize(Market, block[0]) != 0 then [ReadPacket(block)] else []
  }

  function Decode(data: seq<byte>): (packets: seq<Packet>)
  {
    ScanTiles(Market, data);
    Packets(Scan(Market, data))
  }

  /** A known code declaring neither its size nor its size without the header. */
  function MismatchIn(header: seq<byte>): (n: nat)
    requires |header| >= 8
  {
    var known, declared := KnownSize(Market, header[0]), GetHeader(header).value.length;
    if known != 0 && declared != known && declared != known - 8 then 1 else 0
  }

  function UnknownIn(header: seq<byte>): (codes: multiset<byte>)
    requires |header| >= 8
  {
    if KnownSize(Market, header[0]) == 0 then multiset{header[0]} else multiset{}
  }

  /** Every header the loop reads counts, including one whose packet is cut short. */
  function Mismatches(t: Trace): (n: nat)
    requires WellFramed(Market, t)
  {
    match t
    case Tail(_) => 0
    case Halt(bytes) => MismatchIn(bytes)
    case Turn(block, next) => MismatchIn(block) + Mismatches(next)
  }

  function Unknowns(t: Trace): (codes: multiset<byte>)
    requires WellFramed(Market, t)
  {
    match t
    case Tail(_) => multiset{}
    case Halt(bytes) => UnknownIn(bytes)
    case Turn(block, next) => UnknownIn(block) + Unknowns(next)
  }

  datatype Stats = Stats(
    frames: nat, packets: nat, multiPacketFrames: nat,
    lengthMismatches: nat, truncated: nat, unknownCodes: multiset<byte>)

  const ZERO: Stats := Stats(0, 0, 0, 0, 0, multiset{})

  /** One frame's effect on the counters. */
  function Count(s: Stats, data: seq<byte>): Stats
  {
    ScanTiles(Market, data);
    var t := Scan(Market, data);
    Stats(
      s.frames + 1,
      s.packets + |Packets(t)|,
      s.multiPacketFrames + (if |Packets(t)| > 1 then 1 else 0),
      s.lengthMismatches + Mismatches(t),
      s.truncated + (if Truncated(t) then 1 else 0),
      s.unknownCodes + Unknowns(t))
  }

  /** What the loop's branches test, in terms of the header fields. */
  lemma StepByHeader(here: seq<byte>)
    requires |here| >= 8
    ensures
      var length, known := GetHeader(here).value.length, KnownSize(Market, here[0]);
      StepOf(Market, here) ==
        if known == 0 then if length <= 8 || length > |here| then Stop else Skip(length)
        else if known > |here| then Stop else Take(known)
  {
  }

  lemma HeaderOfPrefix(block: seq<byte>, rest: seq<byte>)
    requires |block| >= 8 && block <= rest
    ensures GetHeader(block).value == GetHeader(rest).value
  {
  }

  /** Too few bytes for a header add nothing. */
  lemma NoTurn(here: seq<byte>)
    requires |here| < 8
    ensures
      var t := Scan(Market, here);
      && WellFramed(Market, t) && Packets(t) == [] && !Truncated(t)
      && Mismatches(t) == 0 && Unknowns(t) == multiset{}
  {
  }

  /** The loop reads nothing more: every total is what this header adds. */
  lemma LastTurn(here: seq<byte>)
    requires |here| >= 8 && StepOf(Market, here).Stop?
    ensures
      var t := Scan(Market, here);
      && WellFramed(Market, t) && Packets(t) == [] && Truncated(t)
      && Mismatches(t) == MismatchIn(here) && Unknowns(t) == UnknownIn(here)
  {
    hide StepOf;
  }

  /** One turn splits every total into this block's share and the rest's. */
  lemma {:induction false} NextTurn(data: seq<byte>, at: nat, size: nat)
    requires at + 8 <= |data|
    requires StepOf(Market, data[at..]) == Take(size) || StepOf(Market, data[at..]) == Skip(size)
    ensures at + size <= |data| && WholeBlock(Market, data[at..at + size])
    ensures
      var t, next := Scan(Market, data[at..]), Scan(Market, data[at + size..]);
      && WellFramed(Market, t) && WellFramed(Market, next)
      && Packets(t) == PacketIn(data[at..at + size]) + Packets(next)
      && Mismatches(t) == MismatchIn(data[at..]) + Mismatches(next)
      && Unknowns(t) == UnknownIn(data[at..]) + Unknowns(next)
      && Truncated(t) == Truncated(next)
  {
    hide StepOf, KnownSize, ReadPacket, GetHeader;
    var here := data[at..];
    ScanTiles(Market, here);
    HeaderOfPrefix(here[..size], here);
    assert here[size..] == data[at + size..] && here[..size] == data[at..at + size];
  }

  // ----- the decoder -------------------------------------------------------

  class Decoder {
    var frames: nat
    var packets: nat
    var multiPacketFrames: nat
    var lengthMismatches: nat
    var truncated: nat
    var unknownCodes: multiset<byte>

    function Counters(): Stats
      reads this
    {
      Stats(frames, packets, multiPacketFrames, lengthMismatches, truncated, unknownCodes)
    }

    constructor ()
      ensures Counters() == ZERO
    {
      frames, packets, multiPacketFrames, lengthMismatches, truncated := 0, 0, 0, 0, 0;
      unknownCodes := multiset{};
    }

    method Frame(data: seq<byte>) returns (found: seq<Packet>)
      modifies this
      ensures found == Decode(data)
      ensures Counters() == Count(old(Counters()), data)
    {
      hide ReadPacket, KnownSize, GetHeader, StepOf, Scan, WellFramed, Packets, Mismatches, Unknowns, Truncated;
      frames := frames + 1;
      found := Walk(data);
      packets := packets + |found|;
      if |found| > 1 {
        multiPacketFrames := multiPacketFrames + 1;
      }
    }

    /** The offset loop of `frame`, between its first and last statements. */
    method Walk(data: seq<byte>) returns (found: seq<Packet>)
      modifies `lengthMismatches, `truncated, `unknownCodes
      ensures WellFramed(Market, Scan(Market, data)) && found == Packets(Scan(Market, data))
      ensures lengthMismatches == old(lengthMismatches) + Mismatches(Scan(Market, data))
      ensures unknownCodes == old(unknownCodes) + Unknowns(Scan(Market, data))
      ensures truncated == old(truncated) + if Truncated(Scan(Market, data)) then 1 else 0
    {
      hide ReadPacket, KnownSize, GetHeader, StepOf, Scan, WellFramed, Packets, Mismatches, Unknowns, Truncated;
      found := [];
      var offset, size := 0, |data|;
      ScanTiles(Market, data);
      ghost var trace := Scan(Market, data);
      assert data[0..] == data;

      while offset + 8 <= size
        invariant offset <= size
        invariant
          var rest := Scan(Market, data[offset..]);
          && WellFramed(Market, rest) && Truncated(rest) == Truncated(trace)
          && found + Packets(rest) == Packets(trace)
          && lengthMismatches + Mismatches(rest) == old(lengthMismatches) + Mismatches(trace)
          && unknownCodes + Unknowns(rest) == old(unknownCodes) + Unknowns(trace)
        invariant truncated == old(truncated)
        decreases size - offset
      {
        StepByHeader(data[offset..]);
        var header := GetHeader(data[offset..]).value;
        var code := data[offset];
        var known := KnownSize(Market, code);

        if known == 0 {
          unknownCodes := unknownCodes + multiset{code};
          if header.length <= 8 || offset + header.length > size {
            LastTurn(data[offset..]);
            truncated := truncated + 1;
            return;
          }
          NextTurn(data, offset, header.length);
          offset := offset + header.length;
          continue;
        }

        if header.length != known && header.length != known - 8 {
          lengthMismatches := lengthMismatches + 1;
        }
        if offset + known > size {
          LastTurn(data[offset..]);
          truncated := truncated + 1;
          return;
        }

        NextTurn(data, offset, known);
        found := found + [ReadPacket(data[offset..offset + known])];
        offset := offset + known;
      }
      NoTurn(data[offset..]);
    }
  }
}
