/** Super orders: one orderId over three legs, the composite ids that tell them apart, and their reports. */
module SuperOrders {
  import opened Providers
  import opened Orders
  import opened Wrappers

  datatype Leg = ENTRY_LEG | TARGET_LEG | STOP_LOSS_LEG

  function LegName(leg: Leg): string
  {
    match leg
    case ENTRY_LEG => "ENTRY_LEG"
    case TARGET_LEG => "TARGET_LEG"
    case STOP_LOSS_LEG => "STOP_LOSS_LEG"
  }

  function LegNamed(name: string): (leg: Maybe<Leg>)
    ensures leg.Some? ==> LegName(leg.value) == name
  {
    if name == "ENTRY_LEG" then Some(ENTRY_LEG)
    else if name == "TARGET_LEG" then Some(TARGET_LEG)
    else if name == "STOP_LOSS_LEG" then Some(STOP_LOSS_LEG)
    else None
  }

  /** The entry keeps Dhan's bare id; another leg adds a colon and its name. */
  function LegVenueOrderId(orderId: string, leg: Leg): string
  {
    if leg.ENTRY_LEG? then orderId else orderId + ":" + LegName(leg)
  }

  /** The three ids of one super order, spelled out. */
  lemma LegIdsAre(orderId: string)
    ensures LegVenueOrderId(orderId, ENTRY_LEG) == orderId
    ensures LegVenueOrderId(orderId, TARGET_LEG) == orderId + ":TARGET_LEG"
    ensures LegVenueOrderId(orderId, STOP_LOSS_LEG) == orderId + ":STOP_LOSS_LEG"
  {
    assert ":TARGET_LEG" == ":" + "TARGET_LEG" && ":STOP_LOSS_LEG" == ":" + "STOP_LOSS_LEG";
    assert orderId + ":" + "TARGET_LEG" == orderId + (":" + "TARGET_LEG");
    assert orderId + ":" + "STOP_LOSS_LEG" == orderId + (":" + "STOP_LOSS_LEG");
  }

  lemma LegNamesDiffer(o: string, o': string)
    ensures o + ":" + LegName(TARGET_LEG) != o' + ":" + LegName(STOP_LOSS_LEG)
  {
    var a, b := o + ":" + LegName(TARGET_LEG), o' + ":" + LegName(STOP_LOSS_LEG);
    if |a| == |b| {
      assert a[|a| - 11] == ':' && b[|b| - 11] == 'O';
    }
  }

  lemma SameSuffix(o: string, o': string, suffix: string)
    ensures o + ":" + suffix == o' + ":" + suffix <==> o == o'
  {
    if o + ":" + suffix == o' + ":" + suffix {
      assert o == (o + ":" + suffix)[..|o|] && o' == (o' + ":" + suffix)[..|o'|];
    }
  }

  /**
   * Exactly when two legs share a venue id: they are the same leg of the same
   * order, or one is the entry of an order whose own id is another leg's
   * composite.
   */
  lemma WhenLegIdsCollide(o: string, l: Leg, o': string, l': Leg)
    ensures LegVenueOrderId(o, l) == LegVenueOrderId(o', l') <==>
      || (o == o' && l == l')
      || (l.ENTRY_LEG? && !l'.ENTRY_LEG? && o == o' + ":" + LegName(l'))
      || (!l.ENTRY_LEG? && l'.ENTRY_LEG? && o' == o + ":" + LegName(l))
  {
    LegNamesDiffer(o, o');
    LegNamesDiffer(o', o);
    SameSuffix(o, o', LegName(l));
    if l.ENTRY_LEG? && !l'.ENTRY_LEG? && o == o' {
      assert |o| < |LegVenueOrderId(o, l')|;
    }
    if !l.ENTRY_LEG? && l'.ENTRY_LEG? && o == o' {
      assert |o| < |LegVenueOrderId(o, l)|;
    }
  }

  /** Dhan's order ids, as it issues them. */
  predicate ColonFree(id: string)
  {
    forall i :: 0 <= i < |id| ==> id[i] != ':'
  }

  lemma CompositesHaveColons(o: string, l: Leg)
    ensures !ColonFree(o + ":" + LegName(l))
  {
    assert (o + ":" + LegName(l))[|o|] == ':';
  }

  lemma LegIdsAreDistinct(o: string, l: Leg, o': string, l': Leg)
    requires ColonFree(o) && ColonFree(o')
    ensures LegVenueOrderId(o, l) == LegVenueOrderId(o', l') <==> o == o' && l == l'
  {
    WhenLegIdsCollide(o, l, o', l');
    CompositesHaveColons(o, l);
    CompositesHaveColons(o', l');
  }

  // ----- the bracket as one request ----------------------------------------

  const SUPER_PRODUCT_TYPES: set<string> := {"CNC", "INTRADAY", "MARGIN", "MTF"}

  /** A check that passes, that refuses, or that reads an attribute the order has not got. */
  datatype Check = Passes | Refuses(reason: Refusal) | Escapes

  function Opposite(side: Side): Side
  {
    if side.BUY? then SELL else BUY
  }

  /** Where the stop stands: its trigger, or its price when it has none. */
  function StopLevel(stop: Order): Maybe<real>
  {
    if stop.trigger.Some? then stop.trigger else stop.price
  }

  /** `super_orders.place_payload`'s checks, in order. */
  function SuperCheck(entry: Order, target: Order, stop: Order, instrument: Instrument, productType: string): Check
  {
    var above, below := target.price, StopLevel(stop);
    if DhanOrderType(entry.orderType).None? || !(entry.orderType.LIMIT? || entry.orderType.MARKET?) then
      Refuses(BadOrderType)
    else if target.side != Opposite(entry.side) || stop.side != Opposite(entry.side) then Refuses(SameSideLegs)
    else if above.None? || below.None? then Escapes
    else if entry.side.BUY? && above.value <= below.value then Refuses(InvertedLegs)
    else if entry.side.SELL? && above.value >= below.value then Refuses(InvertedLegs)
    else if SegmentName(instrument.segmentCode).None? then Refuses(NoSegment)
    else if productType !in SUPER_PRODUCT_TYPES then Refuses(BadProductType)
    else Passes
  }

  /** What a super order says under each key. One quantity, the entry's, covers its legs. */
  function SuperSays(
    digest: Digest, entry: Order, target: Order, stop: Order, instrument: Instrument, securityId: string, s: Settings,
    key: Key): Maybe<Field>
  {
    match key
    case DhanClientId => Some(Text(s.clientId))
    case CorrelationKey => Some(Text(CorrelationId(digest, entry.id)))
    case TransactionType => Some(Text(if entry.side.BUY? then "BUY" else "SELL"))
    case ExchangeSegment => AsText(SegmentName(instrument.segmentCode))
    case ProductType => Some(Text(s.productType))
    case OrderTypeKey => AsText(DhanOrderType(entry.orderType))
    case SecurityId => Some(Text(securityId))
    case QuantityKey => Some(Count(UnitsFor(instrument.multiplier, entry.quantity)))
    case PriceKey => Some(Printed(entry.price))
    case TargetPrice => AsAmount(target.price)
    case StopLossPrice => AsAmount(StopLevel(stop))
    case TrailingJump => Some(Text("0"))
    case _ => None
  }

  /** POST /v2/super/orders: the checks in order, then the body. */
  method PlacePayload(
    digest: Digest, entry: Order, target: Order, stop: Order, instrument: Instrument, securityId: string, s: Settings)
      returns (check: Check, payload: Payload)
    ensures check == SuperCheck(entry, target, stop, instrument, s.productType)
    ensures check.Passes? ==>
      forall key :: Under(payload, key) == SuperSays(digest, entry, target, stop, instrument, securityId, s, key)
  {
    hide CorrelationId, UnitsFor, SegmentName, DhanOrderType;
    payload := map[];
    var dhanType := DhanOrderType(entry.orderType);
    if dhanType.None? || !(entry.orderType.LIMIT? || entry.orderType.MARKET?) {
      return Refuses(BadOrderType), payload;
    }
    if target.side != Opposite(entry.side) || stop.side != Opposite(entry.side) {
      return Refuses(SameSideLegs), payload;
    }
    var above, below := target.price, StopLevel(stop);
    if above.None? || below.None? {
      return Escapes, payload;
    }
    if entry.side.BUY? && above.value <= below.value {
      return Refuses(InvertedLegs), payload;
    }
    if entry.side.SELL? && above.value >= below.value {
      return Refuses(InvertedLegs), payload;
    }
    var segment := SegmentName(instrument.segmentCode);
    if segment.None? {
      return Refuses(NoSegment), payload;
    }
    if s.productType !in SUPER_PRODUCT_TYPES {
      return Refuses(BadProductType), payload;
    }
    payload := map[
      DhanClientId := Text(s.clientId),
      CorrelationKey := Text(CorrelationId(digest, entry.id)),
      TransactionType := Text(if entry.side.BUY? then "BUY" else "SELL"),
      ExchangeSegment := Text(segment.value),
      ProductType := Text(s.productType),
      OrderTypeKey := Text(dhanType.value),
      SecurityId := Text(securityId),
      QuantityKey := Count(UnitsFor(instrument.multiplier, entry.quantity)),
      PriceKey := Printed(entry.price),
      TargetPrice := Amount(above.value),
      StopLossPrice := Amount(below.value),
      TrailingJump := Text("0")];
    return Passes, payload;
  }

  /**
   * A super order holds an empty string under a key exactly when what it is
   * told for that key is empty, or under its price when the entry has none.
   */
  lemma WhenSuperOrdersSendNothing(
    digest: Digest, entry: Order, target: Order, stop: Order, instrument: Instrument, securityId: string, s: Settings,
    key: Key)
    requires SuperCheck(entry, target, stop, instrument, s.productType).Passes?
    ensures SuperSays(digest, entry, target, stop, instrument, securityId, s, key) == Some(Text("")) <==>
      || (key == DhanClientId && s.clientId == "")
      || (key == CorrelationKey && CorrelationId(digest, entry.id) == "")
      || (key == SecurityId && securityId == "")
      || (key == PriceKey && entry.price.None?)
  {
    hide CorrelationId, UnitsFor;
  }

  /** Told nothing empty, a super order holds an empty string if and only if its entry has no price. */
  lemma WhenSuperOrdersSendEmpty(
    digest: Digest, entry: Order, target: Order, stop: Order, instrument: Instrument, securityId: string, s: Settings)
    requires SuperCheck(entry, target, stop, instrument, s.productType).Passes?
    requires s.clientId != "" && securityId != "" && CorrelationId(digest, entry.id) != ""
    ensures (exists key :: SuperSays(digest, entry, target, stop, instrument, securityId, s, key) == Some(Text("")))
      <==> entry.price.None?
  {
    hide SuperSays, CorrelationId, SuperCheck;
    forall key {
      WhenSuperOrdersSendNothing(digest, entry, target, stop, instrument, securityId, s, key);
    }
    WhenSuperOrdersSendNothing(digest, entry, target, stop, instrument, securityId, s, PriceKey);
  }

  /** Exactly which brackets are sent: they close what they open, at a profit on one leg and a loss on the other. */
  lemma WhichBracketsAreSent(entry: Order, target: Order, stop: Order, instrument: Instrument, productType: string)
    ensures SuperCheck(entry, target, stop, instrument, productType).Passes? <==>
      && (entry.orderType.LIMIT? || entry.orderType.MARKET?)
      && (if entry.side.BUY? then target.side.SELL? && stop.side.SELL? else target.side.BUY? && stop.side.BUY?)
      && target.price.Some? && (stop.trigger.Some? || stop.price.Some?)
      && (var level := if stop.trigger.Some? then stop.trigger.value else stop.price.value;
          (entry.side.BUY? ==> level < target.price.value) && (entry.side.SELL? ==> target.price.value < level))
      && instrument.segmentCode in {0, 1, 2, 3, 4, 5, 7, 8}
      && productType in {"CNC", "INTRADAY", "MARGIN", "MTF"}
  {
  }

  const ELSEWHERE: set<Key> := {
    ValidityKey, AfterMarketOrder, TriggerPrice, DisclosedQuantity, AmoTime, OrderFlag, SecondPrice, SecondTrigger,
    SecondQuantity}

  /**
   * What a super order says: its entry's side, type and quantity, a target, and
   * a stop at its trigger, or at its price when it has none; nothing trails.
   */
  lemma {:induction false} WhatBracketsSay(
    digest: Digest, entry: Order, target: Order, stop: Order, instrument: Instrument, securityId: string, s: Settings,
    key: Key)
    requires SuperCheck(entry, target, stop, instrument, s.productType).Passes?
    ensures
      var says := SuperSays(digest, entry, target, stop, instrument, securityId, s, key);
      && (key.TransactionType? ==>
           (IsWord(says, "BUY") <==> entry.side.BUY?) && (IsWord(says, "SELL") <==> !entry.side.BUY?))
      && (key.OrderTypeKey? ==>
           (IsWord(says, "LIMIT") <==> entry.orderType.LIMIT?) && (IsWord(says, "MARKET") <==> entry.orderType.MARKET?))
      && (key.PriceKey? && entry.price.Some? ==> IsAmount(says, entry.price, true))
      && (key.TargetPrice? ==> IsAmount(says, target.price, true))
      && (key.StopLossPrice? ==> IsAmount(says, if stop.trigger.Some? then stop.trigger else stop.price, true))
      && (key.TrailingJump? ==> IsWord(says, "0"))
      && (key.QuantityKey? ==> says == Some(Count(UnitsFor(instrument.multiplier, entry.quantity))))
      && (key in ELSEWHERE ==> says.None?)
  {
    hide CorrelationId, SegmentName, UnitsFor;
  }

  // ----- reports -----------------------------------------------------------

  /**
   * One entry of `legDetails`. An absent text is "" and an absent count 0; None
   * is a count or a price that does not convert.
   */
  datatype LegRow = LegRow(
    legName: string, transactionType: string, orderStatus: string,
    totalQuatity: Maybe<int>, totalQuantity: Maybe<int>, remainingQuantity: Maybe<int>, price: Maybe<string>)

  /** One row of GET /v2/super/orders, with None as in an ordinary row and for details that are no object. */
  datatype SuperRow = SuperRow(
    orderId: Maybe<string>, correlationId: string, wire: WireName, transactionType: string, orderType: string,
    orderStatus: string, quantity: Maybe<int>, filledQty: Maybe<int>, price: Maybe<string>, average: Maybe<string>,
    errorDescription: string, created: Maybe<int>, updated: Maybe<int>, legs: seq<Maybe<LegRow>>)

  datatype LegReport = LegReport(
    instrument: InstrumentId, venueOrderId: string, clientOrderId: Maybe<string>,
    side: Side, orderType: OrderType, status: OrderStatus, quantity: nat, filled: nat,
    price: string, average: string, cancelReason: Maybe<string>, accepted: int, last: int)

  /** A count that does not convert is not a zero to be passed over. */
  function FirstNonZero(a: Maybe<int>, b: Maybe<int>): Maybe<int>
  {
    if a != Some(0) then a else b
  }

  /** `_report`, raising at the first key in the order it reads them; the fills and average are the entry's alone. */
  function Report(
    row: SuperRow, instrument: Instrument, leg: Leg, side: Side, ownStatus: string, quantity: Maybe<int>,
    price: Maybe<string>): (r: Result<LegReport, ReportError>)
  {
    var status := StatusNamed(if ownStatus != "" then ownStatus else row.orderStatus);
    var lots := CountedLots(instrument.multiplier, quantity);
    var filled := CountedLots(instrument.multiplier, if leg.ENTRY_LEG? then row.filledQty else Some(0));
    var average := if leg.ENTRY_LEG? then row.average else Some("");
    if status.None? then Err(UnknownStatus)
    else if row.orderId.None? then Err(MissingKey)
    else if lots.Err? then Err(lots.error)
    else if filled.Err? then Err(filled.error)
    else if price.None? || average.None? || row.created.None? || row.updated.None? then Err(Unconvertible)
    else
      Ok(LegReport(
        instrument.id, LegVenueOrderId(row.orderId.value, leg),
        if row.correlationId != "" && leg.ENTRY_LEG? then Some(row.correlationId) else None,
        side, if row.orderType == "MARKET" then MARKET else LIMIT, status.value, lots.value, filled.value,
        price.value, average.value, if row.errorDescription != "" then Some(row.errorDescription) else None,
        row.created.value, LastOf(row.created.value, row.updated.value)))
  }

  function EntryReport(row: SuperRow, instrument: Instrument): Result<LegReport, ReportError>
  {
    Report(row, instrument, ENTRY_LEG, SideOf(row.transactionType), row.orderStatus, row.quantity, row.price)
  }

  function LegQuantity(row: SuperRow, l: LegRow): Maybe<int>
  {
    FirstNonZero(l.totalQuatity, FirstNonZero(l.totalQuantity, FirstNonZero(l.remainingQuantity, row.quantity)))
  }

  function OneLegReport(row: SuperRow, instrument: Instrument, l: LegRow, leg: Leg): Result<LegReport, ReportError>
  {
    Report(row, instrument, leg, SideOf(l.transactionType), l.orderStatus, LegQuantity(row, l), l.price)
  }

  /** What is found already, followed by what the rest gives. */
  function Chain<T>(found: seq<T>, rest: Result<seq<T>, ReportError>): Result<seq<T>, ReportError>
  {
    match rest case Err(e) => Err(e) case Ok(more) => Ok(found + more)
  }

  /**
   * The entry casts the correlation id it is echoed, where the ordinary book
   * recomputes it, so it gives the caller's id back exactly when that id went
   * out as itself.
   */
  lemma EntryIdsAreCast(digest: Digest, id: string, row: SuperRow, instrument: Instrument)
    requires row.correlationId == CorrelationId(digest, id) != "" && EntryReport(row, instrument).Ok?
    ensures EntryReport(row, instrument).value.clientOrderId == Some(id) <==> SentAsItself(id) || digest(id) == id
  {
  }

  /**
   * What an entry's report says is its row's own: side, status, counts, price
   * and average, the row's reason, and the later of its times.
   */
  lemma {:induction false} EntriesSayTheirRows(row: SuperRow, instrument: Instrument)
    requires EntryReport(row, instrument).Ok?
    ensures
      var r := EntryReport(row, instrument).value;
      && (r.side.BUY? <==> row.transactionType == "BUY") && (r.side.SELL? <==> row.transactionType != "BUY")
      && IsWorded(r.status, row.orderStatus) && (IsOpen(r.status) <==> row.orderStatus in OPEN_WORDS)
      && (r.orderType.MARKET? <==> row.orderType == "MARKET") && (r.orderType.LIMIT? <==> row.orderType != "MARKET")
      && CountedLots(instrument.multiplier, row.quantity) == Ok(r.quantity)
      && CountedLots(instrument.multiplier, row.filledQty) == Ok(r.filled)
      && Some(r.price) == row.price && Some(r.average) == row.average
      && (r.cancelReason == if row.errorDescription != "" then Some(row.errorDescription) else None)
      && Some(r.accepted) == row.created && Some(r.last) == (if row.updated == Some(0) then row.created else row.updated)
  {
    hide CountedLots, LegVenueOrderId, StatusNamed;
    StatusesAreWorded(row.orderStatus);
  }

  /** The units a leg gives under one of its three names, taken in this order; a zero is passed over. */
  predicate IsLegCount(l: LegRow, fallback: Maybe<int>, units: Maybe<int>)
  {
    && (l.totalQuatity != Some(0) ==> units == l.totalQuatity)
    && (l.totalQuatity == Some(0) && l.totalQuantity != Some(0) ==> units == l.totalQuantity)
    && (l.totalQuatity == Some(0) && l.totalQuantity == Some(0) && l.remainingQuantity != Some(0) ==>
         units == l.remainingQuantity)
    && (l.totalQuatity == Some(0) && l.totalQuantity == Some(0) && l.remainingQuantity == Some(0) ==> units == fallback)
  }

  /**
   * What another leg's report says is the leg's own side, price and status, or
   * the row's status where the leg has none; its size, or the row's where it
   * gives none; nothing filled, no average, and no client's id.
   */
  lemma {:induction false} LegsSayTheirRows(row: SuperRow, instrument: Instrument, l: LegRow, leg: Leg)
    requires !leg.ENTRY_LEG? && OneLegReport(row, instrument, l, leg).Ok?
    ensures
      var r := OneLegReport(row, instrument, l, leg).value;
      && (r.side.BUY? <==> l.transactionType == "BUY") && (r.side.SELL? <==> l.transactionType != "BUY")
      && IsWorded(r.status, if l.orderStatus == "" then row.orderStatus else l.orderStatus)
      && (exists units ::
           IsLegCount(l, row.quantity, units) && CountedLots(instrument.multiplier, units) == Ok(r.quantity))
      && r.filled == 0 && Some(r.price) == l.price && r.average == "" && r.clientOrderId.None?
  {
    hide LotsFor, LegVenueOrderId, StatusNamed, IsWorded;
    StatusesAreWorded(if l.orderStatus == "" then row.orderStatus else l.orderStatus);
    NoneIsNotBad(instrument.multiplier);
    assert IsLegCount(l, row.quantity, LegQuantity(row, l));
  }

  /** Legs with a name Dhan documents, in order; details that are no object raise. */
  function LegReports(row: SuperRow, instrument: Instrument, legs: seq<Maybe<LegRow>>)
      : Result<seq<LegReport>, ReportError>
  {
    if legs == [] then Ok([])
    else if legs[0].None? then Err(NotAnObject)
    else
      var leg := LegNamed(legs[0].value.legName);
      if leg.None? then LegReports(row, instrument, legs[1..])
      else
        match OneLegReport(row, instrument, legs[0].value, leg.value)
        case Err(e) => Err(e)
        case Ok(first) => Chain([first], LegReports(row, instrument, legs[1..]))
  }

  function RowReports(m: Maps, row: Maybe<SuperRow>): Result<seq<LegReport>, ReportError>
  {
    if row.None? then Err(NotAnObject)
    else
      match InstrumentFor(m, row.value.wire)
      case None => Ok([])
      case Some(instrument) =>
        match EntryReport(row.value, instrument)
        case Err(e) => Err(e)
        case Ok(entry) => Chain([entry], LegReports(row.value, instrument, row.value.legs))
  }

  function Reports(m: Maps, rows: seq<Maybe<SuperRow>>): Result<seq<LegReport>, ReportError>
  {
    if rows == [] then Ok([])
    else
      match RowReports(m, rows[0])
      case Err(e) => Err(e)
      case Ok(first) => Chain(first, Reports(m, rows[1..]))
  }

  lemma ChainChains<T>(found: seq<T>, more: seq<T>, rest: Result<seq<T>, ReportError>)
    ensures Chain(found + more, rest) == Chain(found, Chain(more, rest))
    ensures Chain([], rest) == rest
    ensures Chain(found, Ok([])) == Ok(found)
  {
    if rest.Ok? {
      assert found + more + rest.value == found + (more + rest.value);
      assert [] + rest.value == rest.value;
    }
    assert found + [] == found;
  }

  /** `reports_from`: one report per leg, appended in two nested loops; a bad row raises. */
  method ReportsFrom(m: Maps, rows: seq<Maybe<SuperRow>>) returns (r: Result<seq<LegReport>, ReportError>)
    ensures r == Reports(m, rows)
  {
    hide EntryReport, OneLegReport, InstrumentFor, LegNamed, Chain;
    var found: seq<LegReport> := [];
    ChainChains<LegReport>([], [], Reports(m, rows));
    assert rows[0..] == rows;
    for i := 0 to |rows|
      invariant Chain(found, Reports(m, rows[i..])) == Reports(m, rows)
    {
      assert rows[i..][0] == rows[i] && rows[i..][1..] == rows[i + 1..];
      if rows[i].None? {
        ErrorsPass(found, Reports(m, rows[i..]));
        return Err(NotAnObject);
      }
      var row := rows[i].value;
      var instrument := InstrumentFor(m, row.wire);
      ghost var rest := Reports(m, rows[i + 1..]);
      if instrument.None? {
        ChainChains(found, [], rest);
        continue;
      }
      var entry := EntryReport(row, instrument.value);
      if entry.Err? {
        ErrorsPass(found, Reports(m, rows[i..]));
        return Err(entry.error);
      }
      ghost var before := found;
      found := found + [entry.value];
      ChainChains(before, [entry.value], LegReports(row, instrument.value, row.legs));
      assert row.legs[0..] == row.legs;
      for j := 0 to |row.legs|
        invariant Chain(found, LegReports(row, instrument.value, row.legs[j..]))
                  == Chain(before, RowReports(m, rows[i]))
      {
        assert row.legs[j..][0] == row.legs[j] && row.legs[j..][1..] == row.legs[j + 1..];
        var leg := if row.legs[j].Some? then LegNamed(row.legs[j].value.legName) else None;
        if row.legs[j].Some? && leg.None? {
          continue;
        }
        var one := if row.legs[j].None? then Err(NotAnObject)
                   else OneLegReport(row, instrument.value, row.legs[j].value, leg.value);
        if one.Err? {
          ErrorsPass(found, LegReports(row, instrument.value, row.legs[j..]));
          ErrorsPass(before, RowReports(m, rows[i]));
          ErrorsPass(before, Reports(m, rows[i..]));
          return Err(one.error);
        }
        ChainChains(found, [one.value], LegReports(row, instrument.value, row.legs[j + 1..]));
        found := found + [one.value];
      }
      ChainChains(found, [], Ok([]));
      RowDone(before, found, RowReports(m, rows[i]), rest);
    }
    ChainChains(found, [], Ok([]));
    return Ok(found);
  }

  lemma ErrorsPass<T>(found: seq<T>, r: Result<seq<T>, ReportError>)
    ensures r.Err? <==> Chain(found, r).Err?
    ensures r.Err? ==> Chain(found, r) == r
  {
  }

  lemma RowDone<T>(
    before: seq<T>, found: seq<T>, mine: Result<seq<T>, ReportError>, rest: Result<seq<T>, ReportError>)
    requires Chain(before, mine) == Ok(found)
    ensures mine.Ok? && Chain(found, rest) == Chain(before, Chain(mine.value, rest))
  {
    ChainChains(before, mine.value, rest);
  }

  // ----- telling the legs apart --------------------------------------------

  predicate NoRepeats<T(==)>(s: seq<T>)
  {
    forall i, j :: 0 <= i < j < |s| ==> s[i] != s[j]
  }

  /** The documented legs `legDetails` names, in order. */
  function NamedLegs(legs: seq<Maybe<LegRow>>): seq<Leg>
  {
    if legs == [] then []
    else
      var leg := if legs[0].Some? then LegNamed(legs[0].value.legName) else None;
      (if leg.Some? then [leg.value] else []) + NamedLegs(legs[1..])
  }

  /** The legs one row is reported as: its entry, then the ones its details name. */
  function RowLegs(row: SuperRow): seq<Leg>
  {
    [ENTRY_LEG] + NamedLegs(row.legs)
  }

  /** A row that is an object and names an instrument the provider knows. */
  predicate Known(m: Maps, row: Maybe<SuperRow>): (known: bool)
    ensures known ==> row.Some?
  {
    row.Some? && InstrumentFor(m, row.value.wire).Some?
  }

  /** The order id of a row that has one. */
  function IdOf(row: SuperRow): string
  {
    if row.orderId.Some? then row.orderId.value else ""
  }

  function RowPairs(m: Maps, row: Maybe<SuperRow>): seq<(string, Leg)>
  {
    if Known(m, row) then Tagged(IdOf(row.value), RowLegs(row.value)) else []
  }

  /** The (orderId, leg) pairs a book's reports are for. */
  function Pairs(m: Maps, rows: seq<Maybe<SuperRow>>): seq<(string, Leg)>
  {
    if rows == [] then [] else RowPairs(m, rows[0]) + Pairs(m, rows[1..])
  }

  function Tagged(orderId: string, legs: seq<Leg>): (pairs: seq<(string, Leg)>)
    ensures |pairs| == |legs| && forall i :: 0 <= i < |legs| ==> pairs[i] == (orderId, legs[i])
  {
    seq(|legs|, i requires 0 <= i < |legs| => (orderId, legs[i]))
  }

  ghost predicate AreFor(reports: seq<LegReport>, pairs: seq<(string, Leg)>)
  {
    && |reports| == |pairs|
    && forall i :: 0 <= i < |pairs| ==> reports[i].venueOrderId == LegVenueOrderId(pairs[i].0, pairs[i].1)
  }

  lemma ReportIsFor(
    row: SuperRow, instrument: Instrument, leg: Leg, side: Side, ownStatus: string, quantity: Maybe<int>,
    price: Maybe<string>)
    ensures
      var r := Report(row, instrument, leg, side, ownStatus, quantity, price);
      r.Ok? ==> r.value.venueOrderId == LegVenueOrderId(IdOf(row), leg)
  {
    hide StatusNamed, CountedLots, LegVenueOrderId;
  }

  lemma {:induction false} LegReportsAreFor(row: SuperRow, instrument: Instrument, legs: seq<Maybe<LegRow>>)
    ensures LegReports(row, instrument, legs).Ok? ==>
      AreFor(LegReports(row, instrument, legs).value, Tagged(IdOf(row), NamedLegs(legs)))
  {
    hide LegNamed, LegVenueOrderId, Report, LegQuantity, Tagged, IdOf;
    if legs != [] {
      LegReportsAreFor(row, instrument, legs[1..]);
      if legs[0].Some? && LegNamed(legs[0].value.legName).Some? {
        var l := legs[0].value;
        ReportIsFor(
          row, instrument, LegNamed(l.legName).value, SideOf(l.transactionType), l.orderStatus, LegQuantity(row, l),
          l.price);
      }
    }
  }

  lemma RowReportsAreFor(m: Maps, row: Maybe<SuperRow>)
    ensures RowReports(m, row).Ok? ==> AreFor(RowReports(m, row).value, RowPairs(m, row))
  {
    hide LegNamed, LegVenueOrderId, Report, InstrumentFor, LegReports, NamedLegs, Tagged, IdOf;
    if Known(m, row) {
      var r := row.value;
      ReportIsFor(
        r, InstrumentFor(m, r.wire).value, ENTRY_LEG, SideOf(r.transactionType), r.orderStatus, r.quantity, r.price);
      LegReportsAreFor(row.value, InstrumentFor(m, row.value.wire).value, row.value.legs);
    }
  }

  /** One report per leg, in order, each under that leg's own id. */
  lemma {:induction false} ReportsAreFor(m: Maps, rows: seq<Maybe<SuperRow>>)
    ensures Reports(m, rows).Ok? ==> AreFor(Reports(m, rows).value, Pairs(m, rows))
  {
    hide LegVenueOrderId, RowReports, RowPairs;
    if rows != [] {
      ReportsAreFor(m, rows[1..]);
      RowReportsAreFor(m, rows[0]);
    }
  }

  /** A row whose details name no leg twice and do not name its entry. */
  predicate TidyRow(row: SuperRow)
  {
    NoRepeats(RowLegs(row))
  }

  lemma RepeatsSplit<T>(a: seq<T>, b: seq<T>)
    requires forall i, j :: 0 <= i < |a| && 0 <= j < |b| ==> a[i] != b[j]
    ensures NoRepeats(a + b) <==> NoRepeats(a) && NoRepeats(b)
  {
    var c := a + b;
    if NoRepeats(c) {
      forall i, j | 0 <= i < j < |a| ensures a[i] != a[j] { assert c[i] != c[j]; }
      forall i, j | 0 <= i < j < |b| ensures b[i] != b[j] { assert c[|a| + i] != c[|a| + j]; }
    }
  }

  lemma {:induction false} PairsComeFromRows(m: Maps, rows: seq<Maybe<SuperRow>>, i: nat)
    requires i < |Pairs(m, rows)|
    ensures exists k :: 0 <= k < |rows| && Known(m, rows[k]) && IdOf(rows[k].value) == Pairs(m, rows)[i].0
  {
    hide Known, NamedLegs, IdOf;
    var first := RowPairs(m, rows[0]);
    if i < |first| {
      assert Known(m, rows[0]) && IdOf(rows[0].value) == Pairs(m, rows)[i].0;
    } else {
      PairsComeFromRows(m, rows[1..], i - |first|);
      var k :| 0 <= k < |rows[1..]| && Known(m, rows[1..][k])
        && IdOf(rows[1..][k].value) == Pairs(m, rows[1..])[i - |first|].0;
      assert Known(m, rows[k + 1]) && IdOf(rows[k + 1].value) == Pairs(m, rows)[i].0;
    }
  }

  lemma TaggedRepeats(orderId: string, legs: seq<Leg>)
    ensures NoRepeats(Tagged(orderId, legs)) <==> NoRepeats(legs)
  {
    var t := Tagged(orderId, legs);
    if NoRepeats(t) {
      forall i, j | 0 <= i < j < |legs| ensures legs[i] != legs[j] { assert t[i] != t[j]; }
    }
  }

  /** No two rows that are reported share an order id. */
  predicate OrdersDiffer(m: Maps, rows: seq<Maybe<SuperRow>>)
  {
    forall i, j :: 0 <= i < j < |rows| && Known(m, rows[i]) && Known(m, rows[j]) ==>
      IdOf(rows[i].value) != IdOf(rows[j].value)
  }

  predicate IdsAreColonFree(m: Maps, rows: seq<Maybe<SuperRow>>)
  {
    forall i :: 0 <= i < |rows| && Known(m, rows[i]) ==> ColonFree(IdOf(rows[i].value))
  }

  predicate Tidy(m: Maps, rows: seq<Maybe<SuperRow>>)
  {
    forall i :: 0 <= i < |rows| && Known(m, rows[i]) ==> TidyRow(rows[i].value)
  }

  lemma TidyUnfolds(m: Maps, rows: seq<Maybe<SuperRow>>)
    requires rows != []
    ensures Tidy(m, rows) <==> (Known(m, rows[0]) ==> TidyRow(rows[0].value)) && Tidy(m, rows[1..])
  {
    hide Known, TidyRow;
    if Tidy(m, rows[1..]) {
      forall i | 1 <= i < |rows| && Known(m, rows[i]) ensures TidyRow(rows[i].value) {
        assert rows[i] == rows[1..][i - 1];
      }
    }
  }

  lemma {:induction false} PairsRepeat(m: Maps, rows: seq<Maybe<SuperRow>>)
    requires OrdersDiffer(m, rows)
    ensures NoRepeats(Pairs(m, rows)) <==> Tidy(m, rows)
  {
    hide InstrumentFor, NamedLegs, IdOf;
    if rows != [] {
      forall i, j | 0 <= i < j < |rows[1..]| && Known(m, rows[1..][i]) && Known(m, rows[1..][j])
        ensures IdOf(rows[1..][i].value) != IdOf(rows[1..][j].value)
      {
        assert rows[1..][i] == rows[i + 1] && rows[1..][j] == rows[j + 1];
      }
      PairsRepeat(m, rows[1..]);
      TidyUnfolds(m, rows);
      var first, rest := RowPairs(m, rows[0]), Pairs(m, rows[1..]);
      forall i, j | 0 <= i < |first| && 0 <= j < |rest| ensures first[i] != rest[j] {
        PairsComeFromRows(m, rows[1..], j);
      }
      RepeatsSplit(first, rest);
      if Known(m, rows[0]) {
        TaggedRepeats(IdOf(rows[0].value), RowLegs(rows[0].value));
      }
    }
  }

  predicate IdsDiffer(reports: seq<LegReport>)
  {
    forall i, j :: 0 <= i < j < |reports| ==> reports[i].venueOrderId != reports[j].venueOrderId
  }

  /**
   * Exactly when a book's reports can be told apart. With colon-free order ids
   * that differ row by row, the venue ids of the reports are pairwise distinct
   * if and only if no resolvable row's details name a leg twice or name the
   * entry, which the row itself already reports.
   */
  lemma {:induction false} ReportIdsAreDistinct(m: Maps, rows: seq<Maybe<SuperRow>>)
    requires OrdersDiffer(m, rows) && IdsAreColonFree(m, rows) && Reports(m, rows).Ok?
    ensures IdsDiffer(Reports(m, rows).value) <==> Tidy(m, rows)
  {
    hide Known, NamedLegs, Reports, Tidy, OrdersDiffer, LegVenueOrderId, ColonFree;
    var reports, pairs := Reports(m, rows).value, Pairs(m, rows);
    ReportsAreFor(m, rows);
    PairsRepeat(m, rows);
    forall i, j | 0 <= i < j < |pairs|
      ensures reports[i].venueOrderId == reports[j].venueOrderId <==> pairs[i] == pairs[j]
    {
      PairsComeFromRows(m, rows, i);
      PairsComeFromRows(m, rows, j);
      LegIdsAreDistinct(pairs[i].0, pairs[i].1, pairs[j].0, pairs[j].1);
    }
  }

  // ----- when the book raises ----------------------------------------------

  /** A leg whose report raises: its status, its order's id, its counts, its price, or its order's average or times. */
  predicate IsBadLeg(
    row: SuperRow, instrument: Instrument, leg: Leg, ownStatus: string, quantity: Maybe<int>, price: Maybe<string>)
  {
    || StatusNamed(if ownStatus != "" then ownStatus else row.orderStatus).None?
    || row.orderId.None? || BadCount(instrument.multiplier, quantity) || price.None?
    || (leg.ENTRY_LEG? && (BadCount(instrument.multiplier, row.filledQty) || row.average.None?))
    || row.created.None? || row.updated.None?
  }

  lemma WhenLegsRaise(
    row: SuperRow, instrument: Instrument, leg: Leg, side: Side, ownStatus: string, quantity: Maybe<int>,
    price: Maybe<string>)
    ensures Report(row, instrument, leg, side, ownStatus, quantity, price).Err?
      <==> IsBadLeg(row, instrument, leg, ownStatus, quantity, price)
  {
    hide StatusNamed, CountedLots, BadCount;
    WhenCountsAreBad(instrument.multiplier, quantity);
    WhenCountsAreBad(instrument.multiplier, row.filledQty);
    NoneIsNotBad(instrument.multiplier);
  }

  lemma NoneIsNotBad(lot: Lot)
    ensures CountedLots(lot, Some(0)) == Ok(0)
  {
  }

  /** Details that raise: no object, or a documented leg that is bad. */
  predicate StopsTheLegs(row: SuperRow, instrument: Instrument, l: Maybe<LegRow>)
  {
    l.None? ||
    var leg := LegNamed(l.value.legName);
    leg.Some? && IsBadLeg(row, instrument, leg.value, l.value.orderStatus, LegQuantity(row, l.value), l.value.price)
  }

  lemma {:induction false} WhenDetailsRaise(row: SuperRow, instrument: Instrument, legs: seq<Maybe<LegRow>>)
    ensures LegReports(row, instrument, legs).Err?
      <==> exists k :: 0 <= k < |legs| && StopsTheLegs(row, instrument, legs[k])
  {
    hide LegNamed, IsBadLeg, Report, LegQuantity;
    if legs != [] {
      var rest := legs[1..];
      WhenDetailsRaise(row, instrument, rest);
      assert forall k :: 0 < k < |legs| ==> legs[k] == rest[k - 1];
      if legs[0].Some? && LegNamed(legs[0].value.legName).Some? {
        var l := legs[0].value;
        WhenLegsRaise(
          row, instrument, LegNamed(l.legName).value, SideOf(l.transactionType), l.orderStatus, LegQuantity(row, l),
          l.price);
      }
      if LegReports(row, instrument, rest).Err? {
        var k :| 0 <= k < |rest| && StopsTheLegs(row, instrument, rest[k]);
        assert StopsTheLegs(row, instrument, legs[k + 1]);
      }
    }
  }

  /** A row that makes the read raise: no object, or of a known instrument with a bad entry or bad details. */
  predicate StopsTheBook(m: Maps, row: Maybe<SuperRow>)
  {
    row.None? ||
    var instrument := InstrumentFor(m, row.value.wire);
    instrument.Some? &&
    (|| IsBadLeg(row.value, instrument.value, ENTRY_LEG, row.value.orderStatus, row.value.quantity, row.value.price)
     || exists k :: 0 <= k < |row.value.legs| && StopsTheLegs(row.value, instrument.value, row.value.legs[k]))
  }

  lemma WhenRowsRaise(m: Maps, row: Maybe<SuperRow>)
    ensures RowReports(m, row).Err? <==> StopsTheBook(m, row)
  {
    hide InstrumentFor, IsBadLeg, Report, LegReports, StopsTheLegs;
    if row.Some? && InstrumentFor(m, row.value.wire).Some? {
      var r, instrument := row.value, InstrumentFor(m, row.value.wire).value;
      WhenLegsRaise(r, instrument, ENTRY_LEG, SideOf(r.transactionType), r.orderStatus, r.quantity, r.price);
      WhenDetailsRaise(r, instrument, r.legs);
    }
  }

  /** Exactly when reading the super order book raises. */
  lemma {:induction false} WhenSuperBooksRaise(m: Maps, rows: seq<Maybe<SuperRow>>)
    ensures Reports(m, rows).Err? <==> exists k :: 0 <= k < |rows| && StopsTheBook(m, rows[k])
  {
    hide RowReports, StopsTheBook;
    if rows != [] {
      var rest := rows[1..];
      WhenSuperBooksRaise(m, rest);
      WhenRowsRaise(m, rows[0]);
      assert forall k :: 0 < k < |rows| ==> rows[k] == rest[k - 1];
      if Reports(m, rest).Err? {
        var k :| 0 <= k < |rest| && StopsTheBook(m, rest[k]);
        assert StopsTheBook(m, rows[k + 1]);
      }
    }
  }
}
