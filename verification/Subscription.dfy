/**
 * The subscription protocol (`ws.py`): packets of one fixed size, a hundred
 * slots each, and the split of a long subscription into them.
 */
module Subscription {
  import opened Arithmetic
  import opened Bytes
  import opened Wrappers

  const SUBSCRIBE_GROUP_SIZE: nat := 100
  const CLIENT_BYTES: nat := 30
  const AUTH_BYTES: nat := 50
  const ID_FIELD_BYTES: nat := 20
  const SLOT_BYTES: nat := 21
  const HEADER_BYTES: nat := 83
  const PACKET_BYTES: nat := 2187

  /** One instrument asked for: its segment and its encoded security id. */
  datatype Wanted = Wanted(segment: u8, id: seq<byte>)

  type RequestCode = c: int | -128 <= c < 128

  datatype PacketError = TooManyInstruments | IdTooLong

  function Zeros(n: nat): (z: seq<byte>)
    ensures |z| == n && forall i :: 0 <= i < n ==> z[i] == 0
  {
    seq(n, _ => 0)
  }

  /** `struct`'s fixed-width bytes: cut or padded with zeros. */
  function Field(s: seq<byte>, n: nat): (f: seq<byte>)
    ensures |f| == n
  {
    if |s| >= n then s[..n] else s + Zeros(n - |s|)
  }

  function Slot(w: Wanted): (s: seq<byte>)
    ensures |s| == SLOT_BYTES
  {
    Put8(w.segment, Field(w.id, ID_FIELD_BYTES))
  }

  function Slots(ws: seq<Wanted>): (s: seq<byte>)
    ensures |s| == SLOT_BYTES * |ws|
  {
    if ws == [] then [] else Slots(ws[..|ws| - 1]) + Slot(ws[|ws| - 1])
  }

  predicate Fits(w: Wanted)
  {
    |w.id| <= ID_FIELD_BYTES
  }

  predicate AllFit(ws: seq<Wanted>)
  {
    forall i :: 0 <= i < |ws| ==> Fits(ws[i])
  }

  /** The layout of one packet. */
  function Packet(code: RequestCode, clientId: seq<byte>, ws: seq<Wanted>): (p: seq<byte>)
    requires |ws| <= SUBSCRIBE_GROUP_SIZE
    ensures |p| == PACKET_BYTES
  {
    var body := Put32(|ws|, Slots(ws) + Zeros(SLOT_BYTES * (SUBSCRIBE_GROUP_SIZE - |ws|)));
    Put8(Unsigned(code, 0x80),
         Put16(HEADER_BYTES + 4 + |ws| * SLOT_BYTES, Field(clientId, CLIENT_BYTES) + (Zeros(AUTH_BYTES) + body)))
  }

  /** `subscription_packet`: refuses rather than truncates. */
  method SubscriptionPacket(clientId: seq<byte>, instruments: seq<Wanted>, requestCode: RequestCode)
      returns (r: Result<seq<byte>, PacketError>)
    ensures r == Err(TooManyInstruments) <==> |instruments| > SUBSCRIBE_GROUP_SIZE
    ensures r == Err(IdTooLong) <==> |instruments| <= SUBSCRIBE_GROUP_SIZE && !AllFit(instruments)
    ensures r.Ok? ==> |instruments| <= SUBSCRIBE_GROUP_SIZE && r.value == Packet(requestCode, clientId, instruments)
  {
    hide Put8, Put16, Put32, Field, Slot;
    if |instruments| > SUBSCRIBE_GROUP_SIZE {
      return Err(TooManyInstruments);
    }
    var count := Put32(|instruments|, []);
    var body := count;
    for i := 0 to |instruments|
      invariant body == count + Slots(instruments[..i])
      invariant AllFit(instruments[..i])
    {
      var w := instruments[i];
      assert instruments[..i + 1][..i] == instruments[..i];
      if |w.id| > ID_FIELD_BYTES {
        assert !Fits(instruments[i]);
        return Err(IdTooLong);
      }
      body := body + Slot(w);
      assert count + Slots(instruments[..i]) + Slot(w) == count + (Slots(instruments[..i]) + Slot(w));
    }
    assert instruments[..|instruments|] == instruments;
    var padding := Zeros(SLOT_BYTES * (SUBSCRIBE_GROUP_SIZE - |instruments|));
    body := body + padding;
    assert body == count + (Slots(instruments) + padding);
    CountLeads(|instruments|, Slots(instruments) + padding);
    var messageLength := HEADER_BYTES + |count| + |instruments| * SLOT_BYTES;
    var fields := Field(clientId, CLIENT_BYTES) + Zeros(AUTH_BYTES);
    var header := Put8(Unsigned(requestCode, 0x80), Put16(messageLength, fields));
    HeaderLeads(Unsigned(requestCode, 0x80), messageLength, Field(clientId, CLIENT_BYTES), Zeros(AUTH_BYTES), body);
    return Ok(header + body);
  }

  lemma CountLeads(n: u32, rest: seq<byte>)
    ensures Put32(n, []) + rest == Put32(n, rest)
  {
  }

  lemma HeaderLeads(code: u8, length: u16, client: seq<byte>, auth: seq<byte>, body: seq<byte>)
    ensures Put8(code, Put16(length, client + auth)) + body == Put8(code, Put16(length, client + (auth + body)))
  {
    assert client + auth + body == client + (auth + body);
  }

  // ----- a packet by the byte ----------------------------------------------

  lemma {:induction false} SlotAt(ws: seq<Wanted>, k: nat)
    requires k < |ws|
    ensures Slots(ws)[21 * k..21 * k + 21] == Slot(ws[k])
    decreases |ws|
  {
    hide Slot;
    var n := |ws| - 1;
    if k < n {
      SlotAt(ws[..n], k);
      assert Slots(ws)[21 * k..21 * k + 21] == Slots(ws[..n])[21 * k..21 * k + 21];
    } else {
      assert Slots(ws)[21 * n..21 * n + 21] == Slot(ws[n]);
    }
  }

  /** A byte of text in its field, or the zero that pads it. */
  function Padded(s: seq<byte>, j: nat): byte
  {
    if j < |s| then s[j] else 0
  }

  lemma FieldAt(s: seq<byte>, n: nat, j: nat)
    requires j < n
    ensures Field(s, n)[j] == Padded(s, j)
  {
  }

  /** The parts of a packet, one after another. */
  lemma {:induction false} PacketParts(code: RequestCode, clientId: seq<byte>, ws: seq<Wanted>)
    requires |ws| <= SUBSCRIBE_GROUP_SIZE
    ensures
      var p := Packet(code, clientId, ws);
      && p[0] as int == (if code >= 0 then code else code + 256) && U16At(p, 1) == 87 + 21 * |ws|
      && p[3..33] == Field(clientId, 30) && p[33..83] == Zeros(50) && U32At(p, 83) == |ws|
      && p[87..87 + 21 * |ws|] == Slots(ws) && p[87 + 21 * |ws|..] == Zeros(21 * (100 - |ws|))
  {
    hide Field, Slots, Zeros, Put32, Put16, Get32, Get16, U16At, U32At;
    var slots := Slots(ws) + Zeros(SLOT_BYTES * (SUBSCRIBE_GROUP_SIZE - |ws|));
    var body := Put32(|ws|, slots);
    var fields := Field(clientId, CLIENT_BYTES) + (Zeros(AUTH_BYTES) + body);
    var length := Put16(HEADER_BYTES + 4 + |ws| * SLOT_BYTES, fields);
    var p := Packet(code, clientId, ws);
    assert p[1..] == length;
    Get16At(p, 1);
    assert p[3..] == fields;
    assert p[83..] == body;
    Get32At(p, 83);
    assert p[87..] == slots;
  }

  /**
   * One packet, byte by byte: the request's code, a length of 87 and 21 for each
   * instrument, the client in thirty bytes and no token in fifty, the count,
   * and a slot of twenty-one each, a segment and an id; zeros to the end.
   */
  lemma {:induction false} PacketBytes(code: RequestCode, clientId: seq<byte>, ws: seq<Wanted>, at: nat)
    requires |ws| <= SUBSCRIBE_GROUP_SIZE && at < 2187
    ensures
      var p := Packet(code, clientId, ws);
      && |p| == 2187 && p[0] as int == (if code >= 0 then code else code + 256)
      && U16At(p, 1) == 87 + 21 * |ws| && U32At(p, 83) == |ws|
      && (3 <= at < 33 ==> p[at] == Padded(clientId, at - 3))
      && (33 <= at < 83 ==> p[at] == 0)
      && (87 <= at < 87 + 21 * |ws| ==>
           var k, j := (at - 87) / 21, (at - 87) % 21;
           p[at] == if j == 0 then ws[k].segment as byte else Padded(ws[k].id, j - 1))
      && (87 + 21 * |ws| <= at ==> p[at] == 0)
  {
    hide Packet, Slots, Field, Zeros, U16At, U32At, Slot;
    var p := Packet(code, clientId, ws);
    PacketParts(code, clientId, ws);
    if 3 <= at < 33 {
      FieldAt(clientId, 30, at - 3);
      assert p[at] == p[3..33][at - 3];
    } else if 33 <= at < 83 {
      assert p[at] == p[33..83][at - 33];
    } else if 87 <= at < 87 + 21 * |ws| {
      var k, j := (at - 87) / 21, (at - 87) % 21;
      assert at - 87 == 21 * k + j && k < |ws|;
      SlotAt(ws, k);
      assert p[at] == p[87..87 + 21 * |ws|][at - 87] == Slots(ws)[21 * k..21 * k + 21][j];
      SlotBytes(ws[k], j);
    } else if 87 + 21 * |ws| <= at {
      assert p[at] == p[87 + 21 * |ws|..][at - 87 - 21 * |ws|];
    }
  }

  lemma SlotBytes(w: Wanted, j: nat)
    requires j < 21
    ensures Slot(w)[j] == if j == 0 then w.segment as byte else Padded(w.id, j - 1)
  {
    if j > 0 {
      FieldAt(w.id, 20, j - 1);
    }
  }

  // ----- reading a packet --------------------------------------------------

  /** A zero-padded field's contents: its trailing zeros are padding. */
  function Stripped(f: seq<byte>): (s: seq<byte>)
  {
    if f != [] && f[|f| - 1] == 0 then Stripped(f[..|f| - 1]) else f
  }

  function ReadSlots(s: seq<byte>, n: nat): (ws: seq<Wanted>)
    requires |s| >= SLOT_BYTES * n
    ensures |ws| == n
    decreases n
  {
    if n == 0 then []
    else
      var segment := Get8(s);
      [Wanted(segment.value, Stripped(segment.rest[..ID_FIELD_BYTES]))] + ReadSlots(segment.rest[ID_FIELD_BYTES..], n - 1)
  }

  datatype Unpacked = Unpacked(code: RequestCode, length: u16, clientId: seq<byte>, wanted: seq<Wanted>)

  /** What a server reads: the header, the count, and that many slots. */
  function Unpack(p: seq<byte>): Maybe<Unpacked>
    requires |p| == PACKET_BYTES
  {
    var code := Get8(p);
    var length := Get16(code.rest);
    var count := Get32(length.rest[CLIENT_BYTES + AUTH_BYTES..]);
    if count.value > SUBSCRIBE_GROUP_SIZE then None
    else
      Some(Unpacked(Signed(code.value, 0x80), length.value, Stripped(length.rest[..CLIENT_BYTES]),
                    ReadSlots(count.rest, count.value)))
  }

  predicate EndsInZero(s: seq<byte>)
  {
    s != [] && s[|s| - 1] == 0
  }

  lemma {:induction false} StrippedPadding(s: seq<byte>, n: nat)
    ensures Stripped(s + Zeros(n)) == Stripped(s)
    decreases n
  {
    if n == 0 {
      assert s + Zeros(0) == s;
    } else {
      assert (s + Zeros(n))[..|s| + n - 1] == s + Zeros(n - 1);
      StrippedPadding(s, n - 1);
    }
  }

  lemma {:induction false} StrippedShrinks(s: seq<byte>)
    ensures |Stripped(s)| <= |s| && (EndsInZero(s) ==> |Stripped(s)| < |s|)
    decreases |s|
  {
    if EndsInZero(s) {
      StrippedShrinks(s[..|s| - 1]);
    }
  }

  /** Padding comes off again exactly when the contents do not end in a zero of their own. */
  lemma {:induction false} StrippedField(s: seq<byte>, n: nat)
    requires |s| <= n
    ensures Stripped(Field(s, n)) == Stripped(s)
    ensures Stripped(s) == s <==> !EndsInZero(s)
  {
    StrippedShrinks(s);
    StrippedPadding(s, n - |s|);
    assert Field(s, n) == s + Zeros(n - |s|);
  }

  function Clean(ws: seq<Wanted>): (out: seq<Wanted>)
    ensures |out| == |ws|
  {
    seq(|ws|, i requires 0 <= i < |ws| => Wanted(ws[i].segment, Stripped(ws[i].id)))
  }

  lemma {:induction false} SlotsFromFront(w: Wanted, ws: seq<Wanted>)
    ensures Slots([w] + ws) == Slot(w) + Slots(ws)
    decreases |ws|
  {
    hide Slot;
    if ws == [] {
      assert [w] + ws == [w] && [w][..0] == [];
      assert Slots([w]) == Slots([]) + Slot(w);
    } else {
      var n := |ws| - 1;
      assert ([w] + ws)[..|ws|] == [w] + ws[..n];
      SlotsFromFront(w, ws[..n]);
      assert Slot(w) + Slots(ws[..n]) + Slot(ws[n]) == Slot(w) + (Slots(ws[..n]) + Slot(ws[n]));
    }
  }

  lemma {:induction false} SlotsReadBack(ws: seq<Wanted>, padding: seq<byte>)
    requires AllFit(ws)
    ensures ReadSlots(Slots(ws) + padding, |ws|) == Clean(ws)
    decreases |ws|
  {
    hide Slots, Stripped, Field;
    if ws != [] {
      var w, rest := ws[0], ws[1..];
      assert ws == [w] + rest;
      SlotsFromFront(w, rest);
      var s := Slots(ws) + padding;
      var field := Field(w.id, ID_FIELD_BYTES);
      assert s == Put8(w.segment, field + (Slots(rest) + padding));
      assert Get8(s).rest[..ID_FIELD_BYTES] == field && Get8(s).rest[ID_FIELD_BYTES..] == Slots(rest) + padding;
      StrippedField(w.id, ID_FIELD_BYTES);
      SlotsReadBack(rest, padding);
      assert Clean(ws) == [Wanted(w.segment, Stripped(w.id))] + Clean(rest);
    }
  }

  predicate NoneEndsInZero(ws: seq<Wanted>)
  {
    forall i :: 0 <= i < |ws| ==> !EndsInZero(ws[i].id)
  }

  lemma CleanIsSame(ws: seq<Wanted>)
    requires AllFit(ws)
    ensures Clean(ws) == ws <==> NoneEndsInZero(ws)
  {
    hide Stripped;
    forall i | 0 <= i < |ws| ensures Clean(ws)[i] == ws[i] <==> !EndsInZero(ws[i].id) {
      StrippedField(ws[i].id, ID_FIELD_BYTES);
    }
  }

  lemma {:induction false} LayoutReadsBack(
    code: RequestCode, length: u16, client: seq<byte>, auth: seq<byte>, count: u32, slots: seq<byte>)
    requires |client| == CLIENT_BYTES && |auth| == AUTH_BYTES && count <= SUBSCRIBE_GROUP_SIZE && |slots| == 2100
    ensures
      var p := Put8(Unsigned(code, 0x80), Put16(length, client + (auth + Put32(count, slots))));
      |p| == PACKET_BYTES
      && Unpack(p) == Some(Unpacked(code, length, Stripped(client), ReadSlots(slots, count)))
  {
    hide Stripped, ReadSlots, Get8, Get16, Get32, Put8, Put16, Put32, Signed, Unsigned;
    var body := Put32(count, slots);
    var after := client + (auth + body);
    assert after[CLIENT_BYTES + AUTH_BYTES..] == body && after[..CLIENT_BYTES] == client;
  }

  /**
   * A packet reads back: the code, a declared length of 87 and 21 a slot, and
   * the instruments; these exactly when no id ends in a zero byte of its own.
   */
  lemma {:induction false} PacketReadsBack(code: RequestCode, clientId: seq<byte>, ws: seq<Wanted>)
    requires |ws| <= SUBSCRIBE_GROUP_SIZE && AllFit(ws)
    ensures
      var u := Unpack(Packet(code, clientId, ws));
      && u.Some? && u.value.code == code && u.value.length == 87 + 21 * |ws|
      && (|clientId| <= CLIENT_BYTES ==> u.value.clientId == Stripped(clientId))
      && u.value.wanted == Clean(ws)
      && (u.value.wanted == ws <==> NoneEndsInZero(ws))
  {
    hide Slots, Stripped, ReadSlots, Put8, Put16, Put32, Field, Unsigned, Unpack, AllFit, Clean, NoneEndsInZero, Zeros;
    var n := |ws|;
    var slots := Slots(ws) + Zeros(SLOT_BYTES * (SUBSCRIBE_GROUP_SIZE - n));
    LayoutReadsBack(code, HEADER_BYTES + 4 + n * SLOT_BYTES, Field(clientId, CLIENT_BYTES), Zeros(AUTH_BYTES), n, slots);
    if |clientId| <= CLIENT_BYTES {
      StrippedField(clientId, CLIENT_BYTES);
    }
    SlotsReadBack(ws, Zeros(SLOT_BYTES * (SUBSCRIBE_GROUP_SIZE - n)));
    CleanIsSame(ws);
  }

  // ----- splitting ---------------------------------------------------------

  function Chunks(ws: seq<Wanted>, size: nat): (chunks: seq<seq<Wanted>>)
    requires size > 0
    decreases |ws|
  {
    if ws == [] then []
    else if |ws| <= size then [ws]
    else [ws[..size]] + Chunks(ws[size..], size)
  }

  /** `chunked`: slices from a stepping start, the last one cut short by the end. */
  method Chunked(ws: seq<Wanted>, size: nat) returns (chunks: seq<seq<Wanted>>)
    requires size > 0
    ensures chunks == Chunks(ws, size)
  {
    chunks := [];
    var start := 0;
    assert ws[0..] == ws;
    while start < |ws|
      invariant 0 <= start
      invariant chunks + Chunks(ws[if start < |ws| then start else |ws|..], size) == Chunks(ws, size)
      decreases |ws| - start
    {
      var end := if start + size < |ws| then start + size else |ws|;
      var rest := ws[start..];
      assert |rest| > size ==> rest[..size] == ws[start..end] && rest[size..] == ws[end..];
      assert |rest| <= size ==> rest == ws[start..end];
      assert chunks + ([ws[start..end]] + Chunks(ws[end..], size)) == chunks + [ws[start..end]] + Chunks(ws[end..], size);
      chunks := chunks + [ws[start..end]];
      start := start + size;
    }
  }

  function Joined(chunks: seq<seq<Wanted>>): seq<Wanted>
  {
    if chunks == [] then [] else chunks[0] + Joined(chunks[1..])
  }

  lemma StepsUp(n: nat, size: nat)
    requires size > 0 && n > size
    ensures (n + size - 1) / size == 1 + (n - size + size - 1) / size
  {
    DivIs(n + size - 1, size, 1 + (n - 1) / size, (n - 1) % size);
  }

  /** The chunks are the subscription again, none too long, none empty, and as few as can be. */
  lemma {:induction false} ChunksTile(ws: seq<Wanted>, size: nat)
    requires size > 0
    ensures
      var chunks := Chunks(ws, size);
      && Joined(chunks) == ws && |chunks| == (|ws| + size - 1) / size
      && forall i :: 0 <= i < |chunks| ==> 0 < |chunks[i]| <= size
    decreases |ws|
  {
    if ws == [] {
      DivIs(size - 1, size, 0, size - 1);
    } else if |ws| <= size {
      DivIs(|ws| + size - 1, size, 1, |ws| - 1);
      assert ws + [] == ws;
    } else {
      ChunksTile(ws[size..], size);
      StepsUp(|ws|, size);
      assert ws[..size] + ws[size..] == ws;
    }
  }

  lemma {:induction false} ChunksFit(ws: seq<Wanted>, size: nat)
    requires size > 0 && AllFit(ws)
    ensures forall i :: 0 <= i < |Chunks(ws, size)| ==> AllFit(Chunks(ws, size)[i])
    decreases |ws|
  {
    if |ws| > size {
      ChunksFit(ws[size..], size);
    }
  }

  /** The packets of a whole subscription. */
  function Packets(code: RequestCode, clientId: seq<byte>, chunks: seq<seq<Wanted>>): (ps: seq<seq<byte>>)
    requires forall i :: 0 <= i < |chunks| ==> |chunks[i]| <= SUBSCRIBE_GROUP_SIZE
    ensures |ps| == |chunks| && forall i :: 0 <= i < |ps| ==> |ps[i]| == PACKET_BYTES
  {
    if chunks == [] then [] else [Packet(code, clientId, chunks[0])] + Packets(code, clientId, chunks[1..])
  }

  /** Everything a server is asked for by a sequence of packets. */
  function Heard(packets: seq<seq<byte>>): seq<Wanted>
    requires forall i :: 0 <= i < |packets| ==> |packets[i]| == PACKET_BYTES
  {
    if packets == [] then []
    else
      var u := Unpack(packets[0]);
      (if u.Some? then u.value.wanted else []) + Heard(packets[1..])
  }

  lemma CleanJoins(a: seq<Wanted>, b: seq<Wanted>)
    ensures Clean(a + b) == Clean(a) + Clean(b)
  {
  }

  lemma {:induction false} PacketsAreHeard(code: RequestCode, clientId: seq<byte>, chunks: seq<seq<Wanted>>)
    requires forall i :: 0 <= i < |chunks| ==> |chunks[i]| <= SUBSCRIBE_GROUP_SIZE && AllFit(chunks[i])
    ensures Heard(Packets(code, clientId, chunks)) == Clean(Joined(chunks))
  {
    hide Packet, Unpack, AllFit, Clean, Stripped;
    if chunks == [] {
      assert |Clean([])| == 0;
    } else {
      PacketReadsBack(code, clientId, chunks[0]);
      PacketsAreHeard(code, clientId, chunks[1..]);
      CleanJoins(chunks[0], Joined(chunks[1..]));
      var ps := Packets(code, clientId, chunks);
      assert ps[1..] == Packets(code, clientId, chunks[1..]);
    }
  }

  /**
   * A whole subscription reads back once and in order, over as few packets as
   * can carry it, exactly when no id ends in a zero byte of its own.
   */
  lemma {:induction false} SubscriptionsReadBack(code: RequestCode, clientId: seq<byte>, ws: seq<Wanted>)
    requires AllFit(ws)
    ensures
      var chunks := Chunks(ws, SUBSCRIBE_GROUP_SIZE);
      (ChunksTile(ws, SUBSCRIBE_GROUP_SIZE);
      && |Packets(code, clientId, chunks)| == (|ws| + 99) / 100
      && (Heard(Packets(code, clientId, chunks)) == ws <==> NoneEndsInZero(ws)))
  {
    hide Packets, Heard, Chunks, Clean, AllFit, NoneEndsInZero;
    ChunksTile(ws, SUBSCRIBE_GROUP_SIZE);
    ChunksFit(ws, SUBSCRIBE_GROUP_SIZE);
    PacketsAreHeard(code, clientId, Chunks(ws, SUBSCRIBE_GROUP_SIZE));
    CleanIsSame(ws);
  }
}
