/**
 * Dhan's instrument universe: one loop over the scrip master builds two maps,
 * and an order's identity has to survive the trip through both.
 */
module Providers {
  import opened Arithmetic
  import opened Symbology
  import opened Wrappers

  datatype Exchange = NSE | BSE | MCX

  /** The shared identity: canonical symbol and exchange, never a broker's id. */
  datatype InstrumentId = InstrumentId(symbol: string, venue: Exchange)

  const UNKNOWN_SEGMENT_CODE: int := -1

  /** (exchange, master segment letter) to the feed's code; NSE commodity has none. */
  function SegmentCode(exchange: Exchange, segment: string): (code: Maybe<int>)
  {
    match exchange
    case NSE =>
      if segment == "E" then Some(1)
      else if segment == "D" then Some(2)
      else if segment == "C" then Some(3)
      else if segment == "I" then Some(0)
      else None
    case BSE =>
      if segment == "E" then Some(4)
      else if segment == "C" then Some(7)
      else if segment == "D" then Some(8)
      else if segment == "I" then Some(0)
      else None
    case MCX => if segment == "M" then Some(5) else None
  }

  /** SEGMENT_NAMES: the REST word for a feed code. */
  function SegmentName(code: int): (name: Maybe<string>)
  {
    match code
    case 0 => Some("IDX_I")
    case 1 => Some("NSE_EQ")
    case 2 => Some("NSE_FNO")
    case 3 => Some("NSE_CURRENCY")
    case 4 => Some("BSE_EQ")
    case 5 => Some("MCX_COMM")
    case 7 => Some("BSE_CURRENCY")
    case 8 => Some("BSE_FNO")
    case _ => None
  }

  /** SEGMENT_CODES: the same table turned round. */
  function SegmentNamed(name: string): (code: Maybe<int>)
    ensures code.Some? ==> SegmentName(code.value) == Some(name)
  {
    if name == "IDX_I" then Some(0)
    else if name == "NSE_EQ" then Some(1)
    else if name == "NSE_FNO" then Some(2)
    else if name == "NSE_CURRENCY" then Some(3)
    else if name == "BSE_EQ" then Some(4)
    else if name == "MCX_COMM" then Some(5)
    else if name == "BSE_CURRENCY" then Some(7)
    else if name == "BSE_FNO" then Some(8)
    else None
  }

  lemma SegmentsRoundTrip(code: int)
    ensures SegmentName(code).Some? ==> SegmentNamed(SegmentName(code).value) == Some(code)
    ensures forall exchange, segment :: SegmentCode(exchange, segment) == Some(code) ==> SegmentName(code).Some?
  {
  }

  /** Every listing that can be sent: its exchange, the master's letter, the feed's code and the REST word. */
  const ROUTES: set<(Exchange, string, int, string)> := {
    (NSE, "E", 1, "NSE_EQ"), (NSE, "D", 2, "NSE_FNO"), (NSE, "C", 3, "NSE_CURRENCY"), (NSE, "I", 0, "IDX_I"),
    (BSE, "E", 4, "BSE_EQ"), (BSE, "D", 8, "BSE_FNO"), (BSE, "C", 7, "BSE_CURRENCY"), (BSE, "I", 0, "IDX_I"),
    (MCX, "M", 5, "MCX_COMM")}

  /** The two tables together give these nine routes and no other. */
  lemma {:induction false} RoutesAreThese(exchange: Exchange, segment: string, code: int, name: string)
    ensures SegmentCode(exchange, segment) == Some(code) && SegmentName(code) == Some(name)
      <==> (exchange, segment, code, name) in ROUTES
  {
  }

  // ----- tick precision ----------------------------------------------------

  /** A Decimal: coefficient times ten to the exponent. */
  datatype Decimal = Decimal(coefficient: nat, exponent: int)

  /** Trailing zeros moved from the coefficient into the exponent. */
  function Normalize(d: Decimal): (n: Decimal)
    requires d.coefficient > 0
    ensures n.coefficient > 0 && n.coefficient % 10 != 0
    decreases d.coefficient
  {
    if d.coefficient % 10 == 0 then Normalize(Decimal(d.coefficient / 10, d.exponent + 1)) else d
  }

  const MINIMUM_PRICE_PRECISION: nat := 2

  function PricePrecisionFor(tick: Decimal): (p: nat)
    requires tick.coefficient > 0
  {
    var places := -Normalize(tick).exponent;
    if places > MINIMUM_PRICE_PRECISION then places else MINIMUM_PRICE_PRECISION
  }

  /** `units` of the p-th decimal make exactly the tick. */
  predicate Prints(tick: Decimal, p: nat, units: nat)
  {
    var shift := tick.exponent + p;
    if shift >= 0 then units == tick.coefficient * Pow10(shift)
    else units * Pow10(-shift) == tick.coefficient
  }

  lemma TimesPow(c: nat, k: nat)
    ensures c * Pow10(k + 1) == (10 * c) * Pow10(k)
  {
    assert Pow10(k + 1) == 10 * Pow10(k);
    assert c * (10 * Pow10(k)) == (10 * c) * Pow10(k);
  }

  lemma StripZero(c: nat, e: int, p: nat, units: nat)
    ensures Prints(Decimal(10 * c, e), p, units) <==> Prints(Decimal(c, e + 1), p, units)
  {
    hide Pow10;
    var shift := e + p;
    if shift >= 0 {
      TimesPow(c, shift);
    } else {
      TimesPow(units, -shift - 1);
      assert (10 * units) * Pow10(-shift - 1) == 10 * (units * Pow10(-shift - 1));
      if shift == -1 {
        PowZero();
      }
    }
  }

  /** Normalising changes no value, so it changes nothing about how a tick prints. */
  lemma {:induction false} NormalizePrints(tick: Decimal, p: nat, units: nat)
    requires tick.coefficient > 0
    ensures Prints(tick, p, units) <==> Prints(Normalize(tick), p, units)
    decreases tick.coefficient
  {
    hide Prints;
    if tick.coefficient % 10 == 0 {
      StripZero(tick.coefficient / 10, tick.exponent, p, units);
      NormalizePrints(Decimal(tick.coefficient / 10, tick.exponent + 1), p, units);
    }
  }

  lemma {:induction false} Indivisible(c: nat, units: nat, k: nat)
    requires c % 10 != 0 && k > 0
    ensures units * Pow10(k) != c
  {
    hide Pow10;
    var q := units * Pow10(k - 1);
    TimesPow(units, k - 1);
    assert units * Pow10(k) == 10 * q;
    assert (10 * q) % 10 == 0;
  }

  /**
   * Exact and least: at the precision chosen the tick prints exactly, as at
   * least one unit, and at no smaller precision of two or more does it.
   */
  lemma {:induction false} PrecisionIsExactAndLeast(tick: Decimal)
    requires tick.coefficient > 0
    ensures exists units: nat :: units > 0 && Prints(tick, PricePrecisionFor(tick), units)
    ensures PricePrecisionFor(tick) >= 2
    ensures forall p: nat, units: nat :: 2 <= p && Prints(tick, p, units) ==> PricePrecisionFor(tick) <= p
  {
    var n, precision := Normalize(tick), PricePrecisionFor(tick);
    var units := n.coefficient * Pow10(n.exponent + precision);
    NormalizePrints(tick, precision, units);
    assert units > 0 && Prints(tick, precision, units);
    forall p: nat, u: nat | 2 <= p && Prints(tick, p, u)
      ensures precision <= p
    {
      NormalizePrints(tick, p, u);
      if n.exponent + p < 0 {
        Indivisible(n.coefficient, u, -(n.exponent + p));
      }
    }
  }

  // ----- rows --------------------------------------------------------------

  /** How many units one contract is. */
  type Lot = n: nat | n > 0 witness 1

  /** A parsed row of the scrip master: the contract, where it trades, and Dhan's own numbers for it. */
  datatype ScripRow = ScripRow(
    key: ContractKey,
    exchange: Exchange,
    securityId: string,
    segment: string,
    lotSize: Lot,
    tick: Decimal,
    expiry: Maybe<Date>)

  datatype Filters = Filters(underlyings: set<string>, classes: set<InstrumentClass>)

  /** An instrument carrying the master's own lot, segment code and precision. */
  datatype Instrument = Instrument(
    id: InstrumentId, multiplier: Lot, segmentCode: int, securityId: string, precision: nat)

  predicate ValidRow(row: ScripRow)
  {
    row.tick.coefficient > 0
  }

  predicate Keeps(row: ScripRow, today: Date, filters: Filters)
  {
    && (row.expiry.Some? ==> !DateLess(row.expiry.value, today))
    && (filters.underlyings == {} || row.key.underlying in filters.underlyings)
    && (filters.classes == {} || row.key.instrumentClass in filters.classes)
  }

  function RowCode(row: ScripRow): Maybe<int>
  {
    SegmentCode(row.exchange, row.segment)
  }

  predicate Printable(row: ScripRow)
  {
    ToSymbol(row.key).Ok?
  }

  function RowId(row: ScripRow): InstrumentId
    requires Printable(row)
  {
    InstrumentId(ToSymbol(row.key).value, row.exchange)
  }

  function Build(row: ScripRow): Instrument
    requires ValidRow(row) && Printable(row)
  {
    Instrument(
      RowId(row),
      if row.key.instrumentClass.OPTION? || row.key.instrumentClass.FUTURE? then row.lotSize else 1,
      if RowCode(row).Some? then RowCode(row).value else UNKNOWN_SEGMENT_CODE,
      row.securityId,
      PricePrecisionFor(row.tick))
  }

  /** A row is kept until its contract's last day is over, and when each filter that is set admits it. */
  lemma {:induction false} WhichRowsAreKept(row: ScripRow, today: Date, filters: Filters)
    ensures Keeps(row, today, filters) <==>
      && (row.expiry.None? || row.expiry.value == today || DateLess(today, row.expiry.value))
      && (filters.underlyings != {} ==> row.key.underlying in filters.underlyings)
      && (filters.classes != {} ==> row.key.instrumentClass in filters.classes)
  {
    hide ValidDate;
  }

  /**
   * What a row becomes: one contract is the master's lot of a future or an
   * option and a single unit of anything else; the feed code is -1 exactly when
   * there is none; and the precision prints the tick exactly.
   */
  lemma {:induction false} WhatRowsBecome(row: ScripRow)
    requires ValidRow(row) && Printable(row)
    ensures
      var b, cls := Build(row), row.key.instrumentClass;
      && (cls.FUTURE? || cls.OPTION? ==> b.multiplier == row.lotSize)
      && (cls.EQUITY? || cls.INDEX? ==> b.multiplier == 1)
      && (b.segmentCode == -1 <==> SegmentCode(row.exchange, row.segment).None?)
      && (b.segmentCode != -1 ==> SegmentCode(row.exchange, row.segment) == Some(b.segmentCode))
      && Ok(b.id.symbol) == ToSymbol(row.key) && b.id.venue == row.exchange && b.securityId == row.securityId
      && b.precision >= 2 && exists units: nat :: units > 0 && Prints(row.tick, b.precision, units)
  {
    hide ToSymbol, Prints, PricePrecisionFor;
    PrecisionIsExactAndLeast(row.tick);
  }

  // ----- the maps ----------------------------------------------------------

  datatype Maps = Maps(
    instruments: map<InstrumentId, Instrument>,
    securityIds: map<InstrumentId, string>,
    bySecurity: map<(string, int), InstrumentId>)

  const NO_MAPS: Maps := Maps(map[], map[], map[])

  predicate Good(row: ScripRow)
  {
    ValidRow(row) && Printable(row)
  }

  predicate AllGood(rows: seq<ScripRow>)
  {
    forall i :: 0 <= i < |rows| ==> Good(rows[i])
  }

  /** What adding one row does to the provider. */
  function Add(m: Maps, row: ScripRow): Maps
    requires Good(row)
  {
    Maps(m.instruments[RowId(row) := Build(row)],
         m.securityIds[RowId(row) := row.securityId],
         if RowCode(row).Some? then m.bySecurity[(row.securityId, RowCode(row).value) := RowId(row)]
         else m.bySecurity)
  }

  /** The provider after a whole history of added rows. */
  function MapsOf(history: seq<ScripRow>): Maps
    requires AllGood(history)
  {
    if history == [] then NO_MAPS
    else Add(MapsOf(history[..|history| - 1]), history[|history| - 1])
  }

  /** The rows one load adds: those kept, up to the first whose symbol will not print, which raises. */
  function Added(rows: seq<Maybe<ScripRow>>, today: Date, filters: Filters): (added: seq<ScripRow>)
    requires forall r :: r in rows && r.Some? ==> ValidRow(r.value)
    ensures forall r :: r in added ==> Good(r) && Keeps(r, today, filters)
  {
    if rows == [] then []
    else if rows[0].None? || !Keeps(rows[0].value, today, filters) then Added(rows[1..], today, filters)
    else if !Printable(rows[0].value) then []
    else [rows[0].value] + Added(rows[1..], today, filters)
  }

  class DhanInstrumentProvider {
    var instruments: map<InstrumentId, Instrument>
    var securityIds: map<InstrumentId, string>
    var bySecurity: map<(string, int), InstrumentId>
    ghost var history: seq<ScripRow>

    ghost predicate Valid()
      reads this
    {
      && AllGood(history)
      && Maps(instruments, securityIds, bySecurity) == MapsOf(history)
    }

    constructor ()
      ensures Valid() && history == []
    {
      instruments, securityIds, bySecurity, history := map[], map[], map[], [];
    }

    /** Rows arrive as parsed, None for one the parser does not understand. */
    method LoadAll(rows: seq<Maybe<ScripRow>>, today: Date, filters: Filters) returns (raised: bool)
      requires Valid() && forall r :: r in rows && r.Some? ==> ValidRow(r.value)
      modifies this
      ensures Valid() && history == old(history) + Added(rows, today, filters)
      ensures raised <==> exists r :: r in rows && r.Some? && Keeps(r.value, today, filters) && !Printable(r.value)
    {
      hide Keeps, Printable, ValidRow, Build;
      var i := 0;
      while i < |rows|
        invariant 0 <= i <= |rows| && Valid()
        invariant history + Added(rows[i..], today, filters) == old(history) + Added(rows, today, filters)
        invariant forall j ::
          0 <= j < i && rows[j].Some? && Keeps(rows[j].value, today, filters) ==> Printable(rows[j].value)
      {
        var parsed := rows[i];
        i := i + 1;
        assert rows[i - 1..][0] == parsed && rows[i - 1..][1..] == rows[i..];
        if parsed.None? || !Keeps(parsed.value, today, filters) {
          continue;
        }
        var row := parsed.value;
        assert parsed in rows;
        if !Printable(row) {
          assert Added(rows[i - 1..], today, filters) == [];
          return true;
        }
        var instrument := Build(row);
        var id := RowId(row);
        instruments := instruments[id := instrument];
        securityIds := securityIds[id := row.securityId];
        var code := RowCode(row);
        if code.Some? {
          bySecurity := bySecurity[(row.securityId, code.value) := id];
        }
        history := history + [row];
      }
      return false;
    }
  }

  // ----- identity across the wire ------------------------------------------

  /** What an order for this instrument names it by: securityId and exchangeSegment. */
  datatype WireName = WireName(securityId: string, segment: string)

  /** None when the provider has no securityId, or the segment has no REST name. */
  function NameOnWire(m: Maps, id: InstrumentId): Maybe<WireName>
  {
    if id !in m.securityIds || id !in m.instruments then None
    else
      var name := SegmentName(m.instruments[id].segmentCode);
      if name.None? then None else Some(WireName(m.securityIds[id], name.value))
  }

  /** `_instrument_for`: the instrument a row from Dhan refers to. */
  function InstrumentFor(m: Maps, w: WireName): Maybe<Instrument>
  {
    var code := SegmentNamed(w.segment);
    if code.None? || (w.securityId, code.value) !in m.bySecurity then None
    else
      var id := m.bySecurity[(w.securityId, code.value)];
      if id in m.instruments then Some(m.instruments[id]) else None
  }

  /** The latest row of an instrument. */
  function LatestOf(history: seq<ScripRow>, id: InstrumentId): (row: Maybe<ScripRow>)
    requires AllGood(history)
    ensures row.Some? ==> row.value in history && RowId(row.value) == id
  {
    if history == [] then None
    else
      var n := |history| - 1;
      if RowId(history[n]) == id then Some(history[n]) else LatestOf(history[..n], id)
  }

  /** The latest row listed under a securityId on a feed segment. */
  function LatestOn(history: seq<ScripRow>, securityId: string, code: int): (row: Maybe<ScripRow>)
    ensures row.Some? ==>
      row.value in history && row.value.securityId == securityId && RowCode(row.value) == Some(code)
  {
    if history == [] then None
    else
      var n := |history| - 1;
      if history[n].securityId == securityId && RowCode(history[n]) == Some(code) then Some(history[n])
      else LatestOn(history[..n], securityId, code)
  }

  /** Each map holds what the latest row for its key said. */
  lemma {:induction false} MapsHoldLatest(history: seq<ScripRow>, id: InstrumentId, securityId: string, code: int)
    requires AllGood(history)
    ensures
      var m, own, listed := MapsOf(history), LatestOf(history, id), LatestOn(history, securityId, code);
      && (id in m.instruments <==> own.Some?) && (id in m.securityIds <==> own.Some?)
      && (own.Some? ==> m.instruments[id] == Build(own.value) && m.securityIds[id] == own.value.securityId)
      && ((securityId, code) in m.bySecurity <==> listed.Some?)
      && (listed.Some? ==> m.bySecurity[(securityId, code)] == RowId(listed.value))
  {
    hide Good, Printable, ValidRow, RowId, Build, RowCode;
    if history != [] {
      var n := |history| - 1;
      MapsHoldLatest(history[..n], id, securityId, code);
    }
  }

  lemma {:induction false} RowsAreListed(history: seq<ScripRow>, row: ScripRow, code: int)
    requires AllGood(history) && row in history && RowCode(row) == Some(code)
    ensures LatestOn(history, row.securityId, code).Some? && LatestOf(history, RowId(row)).Some?
  {
    hide Good, Printable, ValidRow, RowId, RowCode;
    var n := |history| - 1;
    if history[n] != row {
      assert history == history[..n] + [history[n]];
      RowsAreListed(history[..n], row, code);
    }
  }

  /**
   * Exactly when an instrument's wire name comes back to it. After any loads,
   * an instrument whose latest row is routable has a wire name, and that name
   * resolves to it if and only if no other instrument has since been listed
   * under the same securityId on the same feed segment.
   */
  lemma {:induction false} IdentitySurvives(history: seq<ScripRow>, id: InstrumentId)
    requires AllGood(history)
    requires LatestOf(history, id).Some? && RowCode(LatestOf(history, id).value).Some?
    ensures
      var m, row := MapsOf(history), LatestOf(history, id).value;
      var name := NameOnWire(m, id);
      var listed := LatestOn(history, row.securityId, RowCode(row).value);
      && name.Some? && name.value.securityId == row.securityId && listed.Some?
      && (row.exchange, row.segment, RowCode(row).value, name.value.segment) in ROUTES
      && (InstrumentFor(m, name.value) == Some(Build(row)) <==> RowId(listed.value) == id)
  {
    hide MapsOf, LatestOf, LatestOn, ValidRow, Printable, SegmentCode, SegmentName, SegmentNamed, ROUTES;
    var row := LatestOf(history, id).value;
    var code := RowCode(row).value;
    SegmentsRoundTrip(code);
    RoutesAreThese(row.exchange, row.segment, code, SegmentName(code).value);
    RowsAreListed(history, row, code);
    MapsHoldLatest(history, id, row.securityId, code);
    var other := RowId(LatestOn(history, row.securityId, code).value);
    MapsHoldLatest(history, other, row.securityId, code);
    RowsAreListed(history, LatestOn(history, row.securityId, code).value, code);
  }

  predicate SameListing(r: ScripRow, s: ScripRow)
  {
    RowCode(r).Some? && RowCode(r) == RowCode(s) && r.securityId == s.securityId
  }

  /** (securityId, feed segment) determines the instrument, as a well-kept master's rows do. */
  ghost predicate Unambiguous(history: seq<ScripRow>)
    requires AllGood(history)
  {
    forall i, j ::
      0 <= i < |history| && 0 <= j < |history| && SameListing(history[i], history[j]) ==>
        RowId(history[i]) == RowId(history[j])
  }

  /** With an unambiguous master, every routable instrument survives the wire. */
  lemma {:induction false} UnambiguousMasterIsFaithful(history: seq<ScripRow>, id: InstrumentId)
    requires AllGood(history) && Unambiguous(history)
    requires LatestOf(history, id).Some? && RowCode(LatestOf(history, id).value).Some?
    ensures
      var m := MapsOf(history);
      NameOnWire(m, id).Some? && InstrumentFor(m, NameOnWire(m, id).value) == Some(m.instruments[id])
      && m.instruments[id].id == id
  {
    hide MapsOf, LatestOf, LatestOn, ValidRow, Printable, RowCode, RowId;
    IdentitySurvives(history, id);
    var row := LatestOf(history, id).value;
    MapsHoldLatest(history, id, row.securityId, RowCode(row).value);
  }

  /** An instrument Dhan publishes no feed code for has no wire name, so no order can name it. */
  lemma UnroutableHasNoName(history: seq<ScripRow>, id: InstrumentId)
    requires AllGood(history)
    requires LatestOf(history, id).Some? && RowCode(LatestOf(history, id).value).None?
    ensures NameOnWire(MapsOf(history), id).None?
  {
    hide MapsOf, LatestOf, ValidRow, Printable, RowCode, RowId;
    MapsHoldLatest(history, id, "", 0);
  }

  /**
   * The two index segments share feed code 0, so the hypothesis is needed: an
   * NSE and a BSE index under one securityId cannot both be told apart.
   */
  lemma SharedIndexSegmentCollides()
    ensures
      var nse := ScripRow(ContractKey("NIFTY", INDEX, None, None, None), NSE, "13", "I", 1, Decimal(1, -2), None);
      var bse := ScripRow(ContractKey("SENSEX", INDEX, None, None, None), BSE, "13", "I", 1, Decimal(1, -2), None);
      && Good(nse) && Good(bse)
      && RowId(nse) != RowId(bse)
      && var m := MapsOf([nse, bse]);
         && NameOnWire(m, RowId(nse)).Some?
         && InstrumentFor(m, NameOnWire(m, RowId(nse)).value) == Some(m.instruments[RowId(bse)])
  {
    hide PricePrecisionFor;
    var nse := ScripRow(ContractKey("NIFTY", INDEX, None, None, None), NSE, "13", "I", 1, Decimal(1, -2), None);
    var bse := ScripRow(ContractKey("SENSEX", INDEX, None, None, None), BSE, "13", "I", 1, Decimal(1, -2), None);
    assert [nse, bse][..1] == [nse];
    assert MapsOf([nse]) == Add(NO_MAPS, nse);
    assert MapsOf([nse, bse]) == Add(Add(NO_MAPS, nse), bse);
  }
}
