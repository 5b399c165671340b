/**
 * How a websocket frame is cut into packets, for both binary sockets.
 *
 * The market feed and the 20-level depth socket run the same offset loop over
 * different headers. A known code advances by its known size and ignores the
 * declared length. An unknown code is skipped by the length it declares.
 */
module Framing {
  import opened Bytes

  datatype Feed = Market | Depth20

  function HeaderSize(p: Feed): nat
  {
    match p case Market => 8 case Depth20 => 12
  }

  const DEPTH20_SIZE: nat := 332

  /** The stride of a code the decoder knows, or 0. */
  function KnownSize(p: Feed, code: byte): (size: nat)
    ensures size != 0 ==> HeaderSize(p) + 2 <= size
  {
    match p
    case Market =>
      (match code
       case 2 => 16
       case 4 => 50
       case 5 => 12
       case 6 => 16
       case 8 => 162
       case 50 => 10
       case _ => 0)
    case Depth20 => if code == 41 || code == 51 then DEPTH20_SIZE else 0
  }

  /** The code byte of a header: first on the market feed, third on the depth socket. */
  function Code(p: Feed, header: seq<byte>): byte
    requires |header| >= HeaderSize(p)
  {
    match p case Market => header[0] case Depth20 => header[2]
  }

  /** The declared length: unsigned on the market feed, signed on the depth socket. */
  function Declared(p: Feed, header: seq<byte>): int
    requires |header| >= HeaderSize(p)
  {
    match p
    case Market => Get16(header[1..]).value
    case Depth20 => Signed(Get16(header).value, 0x8000)
  }

  datatype Step = Take(size: nat) | Skip(size: nat) | Stop

  /** What one turn of the loop does, given every byte from the offset on. */
  function StepOf(p: Feed, rest: seq<byte>): (step: Step)
    requires |rest| >= HeaderSize(p)
    ensures !step.Stop? ==> HeaderSize(p) < step.size <= |rest|
  {
    var known, declared := KnownSize(p, Code(p, rest)), Declared(p, rest);
    if known == 0 then
      if declared <= HeaderSize(p) || declared > |rest| then Stop else Skip(declared)
    else
      if known > |rest| then Stop else Take(known)
  }

  /**
   * A frame as the loop sees it: packets to the end, then either too few
   * bytes for a header, or a header whose packet is not all there.
   */
  datatype Trace =
    | Tail(bytes: seq<byte>)
    | Halt(bytes: seq<byte>)
    | Turn(block: seq<byte>, next: Trace)

  function Scan(p: Feed, data: seq<byte>): (trace: Trace)
    decreases |data|
  {
    if |data| < HeaderSize(p) then Tail(data)
    else
      var step := StepOf(p, data);
      if step.Stop? then Halt(data)
      else Turn(data[..step.size], Scan(p, data[step.size..]))
  }

  /** The bytes of a trace, back to back. */
  function Flat(t: Trace): (data: seq<byte>)
  {
    match t
    case Tail(bytes) => bytes
    case Halt(bytes) => bytes
    case Turn(block, next) => block + Flat(next)
  }

  /** A block the loop consumes in one turn, whatever follows it. */
  predicate WholeBlock(p: Feed, block: seq<byte>)
  {
    |block| >= HeaderSize(p) && !StepOf(p, block).Stop? && StepOf(p, block).size == |block|
  }

  predicate WellFramed(p: Feed, t: Trace)
  {
    match t
    case Tail(bytes) => |bytes| < HeaderSize(p)
    case Halt(bytes) => |bytes| >= HeaderSize(p) && StepOf(p, bytes).Stop?
    case Turn(block, next) => WholeBlock(p, block) && WellFramed(p, next)
  }

  predicate Truncated(t: Trace)
  {
    match t
    case Tail(_) => false
    case Halt(_) => true
    case Turn(_, next) => Truncated(next)
  }

  /** Known packets are returned; the rest of the blocks are skipped. */
  predicate IsKnown(p: Feed, block: seq<byte>)
  {
    |block| >= HeaderSize(p) && KnownSize(p, Code(p, block)) != 0
  }

  function Returned(p: Feed, t: Trace): (blocks: seq<seq<byte>>)
  {
    if t.Turn? then (if IsKnown(p, t.block) then [t.block] else []) + Returned(p, t.next) else []
  }

  // ----- one turn of the loop ----------------------------------------------

  /** With fewer bytes to hand the loop takes the same step, or stops. */
  lemma StepOfPrefix(p: Feed, part: seq<byte>, whole: seq<byte>)
    requires |part| >= HeaderSize(p) && part <= whole
    ensures StepOf(p, part) == StepOf(p, whole) || StepOf(p, part).Stop?
    ensures !StepOf(p, whole).Stop? && StepOf(p, whole).size <= |part| ==> StepOf(p, part) == StepOf(p, whole)
  {
  }

  /** A whole block is a known packet of its known size, or an unknown one of its declared length. */
  lemma WholeBlockSize(p: Feed, block: seq<byte>)
    requires WholeBlock(p, block)
    ensures |block| == if IsKnown(p, block) then KnownSize(p, Code(p, block)) else Declared(p, block)
    ensures |block| > HeaderSize(p)
  {
  }

  // ----- framing is a bijection --------------------------------------------

  /**
   * A scan tiles its frame: the blocks, in order and without gap or overlap,
   * are the frame. So a returned packet never starts inside another packet
   * or inside a skipped body.
   */
  lemma {:induction false} ScanTiles(p: Feed, data: seq<byte>)
    ensures Flat(Scan(p, data)) == data && WellFramed(p, Scan(p, data))
    decreases |data|
  {
    hide StepOf, KnownSize;
    if |data| >= HeaderSize(p) {
      var step := StepOf(p, data);
      if !step.Stop? {
        ScanTiles(p, data[step.size..]);
        StepOfPrefix(p, data[..step.size], data);
        assert data == data[..step.size] + data[step.size..];
      }
    }
  }

  /** Any well-framed run of blocks is read back exactly as it was written. */
  lemma {:induction false} ScanOfFlat(p: Feed, t: Trace)
    requires WellFramed(p, t)
    ensures Scan(p, Flat(t)) == t
  {
    hide StepOf, KnownSize;
    if t.Turn? {
      var data := Flat(t);
      StepOfPrefix(p, t.block, data);
      ScanOfFlat(p, t.next);
      assert data[..|t.block|] == t.block && data[|t.block|..] == Flat(t.next);
    }
  }

  /** Cutting a frame short never invents or alters a packet. */
  lemma {:induction false} PrefixIsSafe(p: Feed, data: seq<byte>, n: nat)
    requires n <= |data|
    ensures Returned(p, Scan(p, data[..n])) <= Returned(p, Scan(p, data))
    decreases n
  {
    hide StepOf, KnownSize, IsKnown;
    var part := data[..n];
    if |part| >= HeaderSize(p) {
      StepOfPrefix(p, part, data);
      var step := StepOf(p, part);
      if !step.Stop? {
        assert StepOf(p, data) == step;
        PrefixIsSafe(p, data[step.size..], n - step.size);
        assert part[step.size..] == data[step.size..][..n - step.size];
        assert part[..step.size] == data[..step.size];
      }
    }
  }

  // ----- frames as they are sent -------------------------------------------

  /** What a sender puts in a frame: packets, and messages this decoder has no layout for. */
  datatype Item<P, D, H> =
    | Known(packet: P, declared: D)
    | Foreign(header: H, body: seq<byte>)

  /** The packets among the items, in order. */
  function Sent<P, D, H>(items: seq<Item<P, D, H>>): seq<P>
  {
    if items == [] then []
    else (if items[0].Known? then [items[0].packet] else []) + Sent(items[1..])
  }

  /** Blocks back to back, and a tail too short for a header. */
  function Frame(blocks: seq<seq<byte>>, tail: seq<byte>): Trace
  {
    if blocks == [] then Tail(tail) else Turn(blocks[0], Frame(blocks[1..], tail))
  }

  predicate AllWhole(p: Feed, blocks: seq<seq<byte>>)
  {
    forall i :: 0 <= i < |blocks| ==> WholeBlock(p, blocks[i])
  }

  lemma {:induction false} FrameIsWell(p: Feed, blocks: seq<seq<byte>>, tail: seq<byte>)
    requires AllWhole(p, blocks) && |tail| < HeaderSize(p)
    ensures WellFramed(p, Frame(blocks, tail)) && !Truncated(Frame(blocks, tail))
  {
    hide WholeBlock;
    if blocks != [] {
      FrameIsWell(p, blocks[1..], tail);
    }
  }

  /** Every frame the loop reads to its end is made of such blocks. */
  lemma {:induction false} TraceIsFrame(p: Feed, t: Trace) returns (blocks: seq<seq<byte>>, tail: seq<byte>)
    requires WellFramed(p, t) && !Truncated(t)
    ensures AllWhole(p, blocks) && |tail| < HeaderSize(p) && Frame(blocks, tail) == t
  {
    hide WholeBlock;
    if t.Tail? {
      blocks, tail := [], t.bytes;
    } else {
      var rest;
      rest, tail := TraceIsFrame(p, t.next);
      blocks := [t.block] + rest;
      assert blocks[1..] == rest;
    }
  }
}
