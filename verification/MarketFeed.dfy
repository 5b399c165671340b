/** The binary market feed: packet layouts, their encoder, and the counting decoder. */
module MarketFeed {
  import opened Bytes
  import opened Framing

  /** An IEEE binary32 as it crosses the wire: its bit pattern. Module Float32 says what it is worth. */
  type f32 = u32

  const CODE_TICKER: u8 := 2
  const CODE_QUOTE: u8 := 4
  const CODE_OI: u8 := 5
  const CODE_PREV_CLOSE: u8 := 6
  const CODE_FULL: u8 := 8
  const CODE_DISCONNECT: u8 := 50

  const DEPTH5_LEVELS: nat := 5

  datatype DepthLevel = DepthLevel(
    bidQty: u32, askQty: u32, bidOrders: u16, askOrders: u16, bidPrice: f32, askPrice: f32)

  /** The run of fields QUOTE and FULL packets start with, and the one they both carry last. */
  datatype Traded = Traded(
    ltp: f32, ltq: u16, ltt: u32, atp: f32, volume: u32, totalSellQty: u32, totalBuyQty: u32)
  datatype Interest = Interest(oi: u32, dayHigh: u32, dayLow: u32)
  datatype Day = Day(open: f32, close: f32, high: f32, low: f32)

  datatype Payload =
    | Ticker(ltp: f32, ltt: u32)
    | PrevClose(prevClose: f32, prevOi: u32)
    | OpenInterest(oi: u32)
    | Quote(traded: Traded, day: Day)
    | Full(traded: Traded, interest: Interest, day: Day, depth: seq<DepthLevel>)
    | Disconnect(reason: u16)

  datatype Packet = Packet(segment: u8, securityId: u32, payload: Payload)

  predicate ValidPacket(p: Packet)
  {
    p.payload.Full? ==> |p.payload.depth| == DEPTH5_LEVELS
  }

  function CodeOf(p: Payload): (code: u8)
  {
    match p
    case Ticker(_, _) => CODE_TICKER
    case PrevClose(_, _) => CODE_PREV_CLOSE
    case OpenInterest(_) => CODE_OI
    case Quote(_, _) => CODE_QUOTE
    case Full(_, _, _, _) => CODE_FULL
    case Disconnect(_) => CODE_DISCONNECT
  }

  // ----- groups of fields --------------------------------------------------

  function GetTraded(s: seq<byte>): (f: Front<Traded>)
    requires |s| >= 26
    ensures |f.rest| == |s| - 26
  {
    var ltp := Get32(s);
    var ltq := Get16(ltp.rest);
    var ltt := Get32(ltq.rest);
    var atp := Get32(ltt.rest);
    var volume := Get32(atp.rest);
    var sell := Get32(volume.rest);
    var buy := Get32(sell.rest);
    Front(Traded(ltp.value, ltq.value, ltt.value, atp.value, volume.value, sell.value, buy.value), buy.rest)
  }

  function PutTraded(t: Traded, rest: seq<byte>): (s: seq<byte>)
    ensures |s| == 26 + |rest| && GetTraded(s) == Front(t, rest)
  {
    Put32(t.ltp, Put16(t.ltq, Put32(t.ltt, Put32(t.atp,
      Put32(t.volume, Put32(t.totalSellQty, Put32(t.totalBuyQty, rest)))))))
  }

  function GetInterest(s: seq<byte>): (f: Front<Interest>)
    requires |s| >= 12
    ensures |f.rest| == |s| - 12
  {
    var oi := Get32(s);
    var high := Get32(oi.rest);
    var low := Get32(high.rest);
    Front(Interest(oi.value, high.value, low.value), low.rest)
  }

  function PutInterest(i: Interest, rest: seq<byte>): (s: seq<byte>)
    ensures |s| == 12 + |rest| && GetInterest(s) == Front(i, rest)
  {
    Put32(i.oi, Put32(i.dayHigh, Put32(i.dayLow, rest)))
  }

  function GetDay(s: seq<byte>): (f: Front<Day>)
    requires |s| >= 16
    ensures |f.rest| == |s| - 16
  {
    var open := Get32(s);
    var close := Get32(open.rest);
    var high := Get32(close.rest);
    var low := Get32(high.rest);
    Front(Day(open.value, close.value, high.value, low.value), low.rest)
  }

  function PutDay(d: Day, rest: seq<byte>): (s: seq<byte>)
    ensures |s| == 16 + |rest| && GetDay(s) == Front(d, rest)
  {
    Put32(d.open, Put32(d.close, Put32(d.high, Put32(d.low, rest))))
  }

  function GetLevel(s: seq<byte>): (f: Front<DepthLevel>)
    requires |s| >= 20
    ensures |f.rest| == |s| - 20
  {
    var bidQty := Get32(s);
    var askQty := Get32(bidQty.rest);
    var bidOrders := Get16(askQty.rest);
    var askOrders := Get16(bidOrders.rest);
    var bidPrice := Get32(askOrders.rest);
    var askPrice := Get32(bidPrice.rest);
    Front(DepthLevel(bidQty.value, askQty.value, bidOrders.value, askOrders.value,
                     bidPrice.value, askPrice.value), askPrice.rest)
  }

  function PutLevel(l: DepthLevel, rest: seq<byte>): (s: seq<byte>)
    ensures |s| == 20 + |rest| && GetLevel(s) == Front(l, rest)
  {
    Put32(l.bidQty, Put32(l.askQty, Put16(l.bidOrders, Put16(l.askOrders,
      Put32(l.bidPrice, Put32(l.askPrice, rest))))))
  }

  function GetLevels(n: nat, s: seq<byte>): (levels: seq<DepthLevel>)
    requires |s| == 20 * n
    ensures |levels| == n
  {
    if n == 0 then [] else var l := GetLevel(s); [l.value] + GetLevels(n - 1, l.rest)
  }

  function PutLevels(levels: seq<DepthLevel>): (s: seq<byte>)
    ensures |s| == 20 * |levels|
  {
    if levels == [] then [] else PutLevel(levels[0], PutLevels(levels[1..]))
  }

  lemma {:induction false} LevelsRoundTrip(levels: seq<DepthLevel>)
    ensures GetLevels(|levels|, PutLevels(levels)) == levels
  {
    hide GetLevel, PutLevel;
    if levels != [] {
      LevelsRoundTrip(levels[1..]);
    }
  }

  // ----- packets -----------------------------------------------------------

  datatype Header = Header(code: u8, length: u16, segment: u8, securityId: u32)

  function GetHeader(s: seq<byte>): (f: Front<Header>)
    requires |s| >= 8
    ensures |f.rest| == |s| - 8
  {
    var code := Get8(s);
    var length := Get16(code.rest);
    var segment := Get8(length.rest);
    var id := Get32(segment.rest);
    Front(Header(code.value, length.value, segment.value, id.value), id.rest)
  }

  function PutHeader(h: Header, rest: seq<byte>): (s: seq<byte>)
    ensures |s| == 8 + |rest| && GetHeader(s) == Front(h, rest)
  {
    Put8(h.code, Put16(h.length, Put8(h.segment, Put32(h.securityId, rest))))
  }

  function GetPair(s: seq<byte>): (f: (u32, u32))
    requires |s| == 8
  {
    var first := Get32(s);
    (first.value, Get32(first.rest).value)
  }

  function PutPair(first: u32, second: u32): (s: seq<byte>)
    ensures |s| == 8 && GetPair(s) == (first, second)
  {
    Put32(first, Put32(second, []))
  }

  function GetQuote(s: seq<byte>): (p: Payload)
    requires |s| == 42
    ensures p.Quote?
  {
    var traded := GetTraded(s);
    Quote(traded.value, GetDay(traded.rest).value)
  }

  function PutQuote(p: Payload): (s: seq<byte>)
    requires p.Quote?
    ensures |s| == 42
  {
    PutTraded(p.traded, PutDay(p.day, []))
  }

  function GetFull(s: seq<byte>): (p: Payload)
    requires |s| == 154
    ensures p.Full? && |p.depth| == DEPTH5_LEVELS
  {
    var traded := GetTraded(s);
    var interest := GetInterest(traded.rest);
    var day := GetDay(interest.rest);
    Full(traded.value, interest.value, day.value, GetLevels(DEPTH5_LEVELS, day.rest))
  }

  function PutFull(p: Payload): (s: seq<byte>)
    requires p.Full? && |p.depth| == DEPTH5_LEVELS
    ensures |s| == 154
  {
    PutTraded(p.traded, PutInterest(p.interest, PutDay(p.day, PutLevels(p.depth))))
  }

  /** The size of each known code's body. */
  function BodySize(code: u8): (size: nat)
    ensures KnownSize(Market, code as byte) == if size == 0 then 0 else 8 + size
  {
    if code == CODE_TICKER || code == CODE_PREV_CLOSE then 8
    else if code == CODE_OI then 4
    else if code == CODE_QUOTE then 42
    else if code == CODE_FULL then 154
    else if code == CODE_DISCONNECT then 2
    else 0
  }

  function GetPayload(code: u8, s: seq<byte>): (p: Payload)
    requires |s| == BodySize(code) != 0
  {
    if code == CODE_TICKER then var (ltp, ltt) := GetPair(s); Ticker(ltp, ltt)
    else if code == CODE_PREV_CLOSE then var (close, oi) := GetPair(s); PrevClose(close, oi)
    else if code == CODE_OI then OpenInterest(Get32(s).value)
    else if code == CODE_QUOTE then GetQuote(s)
    else if code == CODE_FULL then GetFull(s)
    else Disconnect(Get16(s).value)
  }

  function PutPayload(p: Payload): (s: seq<byte>)
    requires p.Full? ==> |p.depth| == DEPTH5_LEVELS
  {
    match p
    case Ticker(ltp, ltt) => PutPair(ltp, ltt)
    case PrevClose(close, oi) => PutPair(close, oi)
    case OpenInterest(oi) => Put32(oi, [])
    case Quote(_, _) => PutQuote(p)
    case Full(_, _, _, _) => PutFull(p)
    case Disconnect(reason) => Put16(reason, [])
  }

  lemma {:induction false} PayloadCode(code: u8, s: seq<byte>)
    requires |s| == BodySize(code) != 0
    ensures var p := GetPayload(code, s);
      CodeOf(p) == code && (p.Full? ==> |p.depth| == DEPTH5_LEVELS)
  {
    hide GetPair, GetQuote, GetFull, Get32, Get16;
  }

  lemma {:induction false} PayloadRoundTrip(p: Payload)
    requires p.Full? ==> |p.depth| == DEPTH5_LEVELS
    ensures |PutPayload(p)| == BodySize(CodeOf(p)) && GetPayload(CodeOf(p), PutPayload(p)) == p
  {
    hide GetPair, PutPair, GetTraded, PutTraded, GetDay, PutDay, GetInterest, PutInterest,
      Get32, Put32, Get16, Put16, PutLevels, GetLevels;
    if p.Full? {
      LevelsRoundTrip(p.depth);
    }
  }

  /** What one known packet says. The declared length is not part of it. */
  function ReadPacket(s: seq<byte>): (p: Packet)
    requires |s| >= 8 && KnownSize(Market, s[0]) == |s|
    ensures ValidPacket(p) && CodeOf(p.payload) == s[0] as int
  {
    PayloadCode(s[0] as int, GetHeader(s).rest);
    var Front(header, body) := GetHeader(s);
    Packet(header.segment, header.securityId, GetPayload(header.code, body))
  }

  /** The documented layout of a packet, under whatever length it declares. */
  function WritePacket(p: Packet, declared: u16): (s: seq<byte>)
    requires ValidPacket(p)
    ensures |s| >= 8 && s[0] as int == CodeOf(p.payload) && KnownSize(Market, s[0]) == |s|
    ensures GetHeader(s).value.length == declared && ReadPacket(s) == p
  {
    PayloadRoundTrip(p.payload);
    PutHeader(Header(CodeOf(p.payload), declared, p.segment, p.securityId), PutPayload(p.payload))
  }

  // ----- packets by the byte -----------------------------------------------

  /** The eight bytes every packet starts with. */
  lemma {:induction false} HeaderBytes(b: seq<byte>)
    requires |b| >= 8
    ensures GetHeader(b) == Front(Header(b[0] as int, U16At(b, 1), b[3] as int, U32At(b, 4)), b[8..])
  {
    hide Get32, Get16;
    Get16At(b, 1);
    Get32At(b, 4);
    assert b[1..][2..] == b[3..];
    assert b[3..][1..] == b[4..];
  }

  lemma {:induction false} TradedBytes(b: seq<byte>)
    requires |b| >= 34
    ensures GetTraded(b[8..])
      == Front(Traded(U32At(b, 8), U16At(b, 12), U32At(b, 14), U32At(b, 18), U32At(b, 22), U32At(b, 26), U32At(b, 30)),
               b[34..])
  {
    hide Get32, Get16, U32At, U16At;
    Get32At(b, 8);
    Get16At(b, 12);
    Get32At(b, 14);
    Get32At(b, 18);
    Get32At(b, 22);
    Get32At(b, 26);
    Get32At(b, 30);
  }

  lemma {:induction false} DayBytes(b: seq<byte>, at: nat)
    requires |b| >= at + 16
    ensures GetDay(b[at..])
      == Front(Day(U32At(b, at), U32At(b, at + 4), U32At(b, at + 8), U32At(b, at + 12)), b[at + 16..])
  {
    hide Get32, U32At;
    Get32At(b, at);
    Get32At(b, at + 4);
    Get32At(b, at + 8);
    Get32At(b, at + 12);
  }

  /** A ticker: its price and its time. */
  lemma {:induction false} TickerBytes(b: seq<byte>)
    requires |b| == 16 && b[0] == 2
    ensures ReadPacket(b) == Packet(b[3] as int, U32At(b, 4), Ticker(U32At(b, 8), U32At(b, 12)))
  {
    hide Get32, U32At;
    HeaderBytes(b);
    Get32At(b, 8);
    Get32At(b, 12);
  }

  /** The previous session's close and open interest. */
  lemma {:induction false} PrevCloseBytes(b: seq<byte>)
    requires |b| == 16 && b[0] == 6
    ensures ReadPacket(b) == Packet(b[3] as int, U32At(b, 4), PrevClose(U32At(b, 8), U32At(b, 12)))
  {
    hide Get32, U32At;
    HeaderBytes(b);
    Get32At(b, 8);
    Get32At(b, 12);
  }

  lemma {:induction false} OpenInterestBytes(b: seq<byte>)
    requires |b| == 12 && b[0] == 5
    ensures ReadPacket(b) == Packet(b[3] as int, U32At(b, 4), OpenInterest(U32At(b, 8)))
  {
    hide Get32, U32At;
    HeaderBytes(b);
    Get32At(b, 8);
  }

  lemma {:induction false} DisconnectBytes(b: seq<byte>)
    requires |b| == 10 && b[0] == 50
    ensures ReadPacket(b) == Packet(b[3] as int, U32At(b, 4), Disconnect(U16At(b, 8)))
  {
    hide Get16, U16At, U32At;
    HeaderBytes(b);
    Get16At(b, 8);
  }

  /** A quote: what traded, then open, close, high and low. */
  lemma {:induction false} QuoteBytes(b: seq<byte>)
    requires |b| == 50 && b[0] == 4
    ensures ReadPacket(b) == Packet(b[3] as int, U32At(b, 4), Quote(
      Traded(U32At(b, 8), U16At(b, 12), U32At(b, 14), U32At(b, 18), U32At(b, 22), U32At(b, 26), U32At(b, 30)),
      Day(U32At(b, 34), U32At(b, 38), U32At(b, 42), U32At(b, 46))))
  {
    hide Get32, U32At, U16At, GetTraded, GetDay, GetHeader;
    HeaderBytes(b);
    TradedBytes(b);
    DayBytes(b, 34);
  }

  /** The level at an offset: quantities, orders and prices, the bid first of each. */
  function LevelAt(b: seq<byte>, at: nat): DepthLevel
    requires |b| >= at + 20
  {
    DepthLevel(U32At(b, at), U32At(b, at + 4), U16At(b, at + 8), U16At(b, at + 10), U32At(b, at + 12), U32At(b, at + 16))
  }

  lemma {:induction false} LevelBytes(b: seq<byte>, at: nat)
    requires |b| >= at + 20
    ensures GetLevel(b[at..]) == Front(LevelAt(b, at), b[at + 20..])
  {
    hide Get32, Get16, U32At, U16At;
    Get32At(b, at);
    Get32At(b, at + 4);
    Get16At(b, at + 8);
    Get16At(b, at + 10);
    Get32At(b, at + 12);
    Get32At(b, at + 16);
  }

  lemma {:induction false} LevelsBytes(b: seq<byte>, at: nat, n: nat)
    requires |b| == at + 20 * n
    ensures forall i :: 0 <= i < n ==> GetLevels(n, b[at..])[i] == LevelAt(b, at + 20 * i)
    decreases n
  {
    hide GetLevel, LevelAt;
    if n > 0 {
      LevelBytes(b, at);
      LevelsBytes(b, at + 20, n - 1);
      var levels := GetLevels(n, b[at..]);
      forall i | 0 < i < n ensures levels[i] == LevelAt(b, at + 20 * i) {
        assert levels[i] == GetLevels(n - 1, b[at + 20..])[i - 1];
        assert at + 20 + 20 * (i - 1) == at + 20 * i;
      }
    }
  }

  /** A full packet: what traded, the open interest and its range, the day, and five levels of twenty bytes each. */
  lemma {:induction false} FullBytes(b: seq<byte>)
    requires |b| == 162 && b[0] == 8
    ensures
      var p := ReadPacket(b);
      && p.segment == b[3] as int && p.securityId == U32At(b, 4) && p.payload.Full?
      && p.payload.traded == Traded(
           U32At(b, 8), U16At(b, 12), U32At(b, 14), U32At(b, 18), U32At(b, 22), U32At(b, 26), U32At(b, 30))
      && p.payload.interest == Interest(U32At(b, 34), U32At(b, 38), U32At(b, 42))
      && p.payload.day == Day(U32At(b, 46), U32At(b, 50), U32At(b, 54), U32At(b, 58))
      && |p.payload.depth| == 5
      && forall i :: 0 <= i < 5 ==> p.payload.depth[i] == LevelAt(b, 62 + 20 * i)
  {
    hide Get32, U32At, U16At, GetTraded, GetDay, GetHeader, GetLevels, LevelAt;
    HeaderBytes(b);
    TradedBytes(b);
    Get32At(b, 34);
    Get32At(b, 38);
    Get32At(b, 42);
    DayBytes(b, 46);
    LevelsBytes(b, 62, 5);
  }

  // ----- writing back what was read ---------------------------------------

  lemma PutGetTraded(s: seq<byte>)
    requires |s| >= 26
    ensures PutTraded(GetTraded(s).value, GetTraded(s).rest) == s
  {
    hide Get32, Put32, Get16, Put16;
    var ltp := Get32(s);
    var ltq := Get16(ltp.rest);
    var ltt := Get32(ltq.rest);
    var atp := Get32(ltt.rest);
    var volume := Get32(atp.rest);
    var sell := Get32(volume.rest);
    PutGet32(s);
    PutGet16(ltp.rest);
    PutGet32(ltq.rest);
    PutGet32(ltt.rest);
    PutGet32(atp.rest);
    PutGet32(volume.rest);
    PutGet32(sell.rest);
  }

  lemma PutGetInterest(s: seq<byte>)
    requires |s| >= 12
    ensures PutInterest(GetInterest(s).value, GetInterest(s).rest) == s
  {
    hide Get32, Put32;
    var oi := Get32(s);
    var high := Get32(oi.rest);
    PutGet32(s);
    PutGet32(oi.rest);
    PutGet32(high.rest);
  }

  lemma PutGetDay(s: seq<byte>)
    requires |s| >= 16
    ensures PutDay(GetDay(s).value, GetDay(s).rest) == s
  {
    hide Get32, Put32;
    var open := Get32(s);
    var close := Get32(open.rest);
    var high := Get32(close.rest);
    PutGet32(s);
    PutGet32(open.rest);
    PutGet32(close.rest);
    PutGet32(high.rest);
  }

  lemma PutGetLevel(s: seq<byte>)
    requires |s| >= 20
    ensures PutLevel(GetLevel(s).value, GetLevel(s).rest) == s
  {
    hide Get32, Put32, Get16, Put16;
    var bidQty := Get32(s);
    var askQty := Get32(bidQty.rest);
    var bidOrders := Get16(askQty.rest);
    var askOrders := Get16(bidOrders.rest);
    var bidPrice := Get32(askOrders.rest);
    PutGet32(s);
    PutGet32(bidQty.rest);
    PutGet16(askQty.rest);
    PutGet16(bidOrders.rest);
    PutGet32(askOrders.rest);
    PutGet32(bidPrice.rest);
  }

  lemma {:induction false} PutGetLevels(n: nat, s: seq<byte>)
    requires |s| == 20 * n
    ensures PutLevels(GetLevels(n, s)) == s
  {
    hide GetLevel, PutLevel;
    if n > 0 {
      PutGetLevel(s);
      PutGetLevels(n - 1, GetLevel(s).rest);
      assert GetLevels(n, s)[1..] == GetLevels(n - 1, GetLevel(s).rest);
    }
  }

  lemma {:induction false} PutGetPayload(code: u8, s: seq<byte>)
    requires |s| == BodySize(code) != 0
    ensures (PayloadCode(code, s); PutPayload(GetPayload(code, s)) == s)
  {
    hide GetTraded, PutTraded, GetDay, PutDay, GetInterest, PutInterest,
      Get32, Put32, Get16, Put16, PutLevels, GetLevels;
    PayloadCode(code, s);
    if code == CODE_TICKER || code == CODE_PREV_CLOSE {
      PutGet32(s);
      PutGet32(Get32(s).rest);
    } else if code == CODE_OI {
      PutGet32(s);
    } else if code == CODE_QUOTE {
      PutGetTraded(s);
      PutGetDay(GetTraded(s).rest);
    } else if code == CODE_FULL {
      var traded := GetTraded(s);
      var interest := GetInterest(traded.rest);
      PutGetTraded(s);
      PutGetInterest(traded.rest);
      PutGetDay(interest.rest);
      PutGetLevels(DEPTH5_LEVELS, GetDay(interest.rest).rest);
    } else {
      PutGet16(s);
    }
  }

  lemma PutGetHeader(s: seq<byte>)
    requires |s| >= 8
    ensures PutHeader(GetHeader(s).value, GetHeader(s).rest) == s
  {
    hide Get32, Put32, Get16, Put16, Get8, Put8;
    var code := Get8(s);
    var length := Get16(code.rest);
    var segment := Get8(length.rest);
    PutGet8(s);
    PutGet16(code.rest);
    PutGet8(length.rest);
    PutGet32(segment.rest);
  }

  /** A known block is the writing of exactly one packet under one declared length. */
  lemma {:induction false} WriteRead(s: seq<byte>)
    requires |s| >= 8 && KnownSize(Market, s[0]) == |s|
    ensures WritePacket(ReadPacket(s), GetHeader(s).value.length) == s
  {
    hide GetPayload, PutPayload;
    var Front(header, body) := GetHeader(s);
    PayloadCode(header.code, body);
    PutGetPayload(header.code, body);
    PutGetHeader(s);
  }
}
