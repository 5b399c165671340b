/** Dhan's order path: correlation ids, units, the placement payload, and rows read back as reports. */
module Orders {
  import opened Arithmetic
  import opened Providers
  import opened Wrappers

  // ----- correlation ids ---------------------------------------------------

  const CORRELATION_ID_MAX_LEN: nat := 25

  /** The hash of an id Dhan will not take as it stands: some function of the id. */
  type Digest = string -> string

  predicate IsSafe(c: char)
  {
    'A' <= c <= 'Z' || 'a' <= c <= 'z' || '0' <= c <= '9' || c == ' ' || c == '_' || c == '-'
  }

  /** An id within the measured length and charset, sent as itself. */
  predicate SentAsItself(id: string)
  {
    0 < |id| <= CORRELATION_ID_MAX_LEN && forall i :: 0 <= i < |id| ==> IsSafe(id[i])
  }

  function CorrelationId(digest: Digest, id: string): string
  {
    if SentAsItself(id) then id else digest(id)
  }

  /** A letter, a digit, a space, an underscore or a hyphen, by its ASCII code. */
  predicate IsPlain(c: char)
  {
    var code := c as int;
    65 <= code <= 90 || 97 <= code <= 122 || 48 <= code <= 57 || code == 32 || code == 95 || code == 45
  }

  /** Character by character: one to twenty-five plain ones, and none but those. */
  lemma {:induction false} WhichIdsAreSent(id: string)
    ensures SentAsItself(id) <==> 1 <= |id| <= 25 && forall i :: 0 <= i < |id| ==> IsPlain(id[i])
  {
    hide IsSafe, IsPlain;
    forall i | 0 <= i < |id| ensures IsSafe(id[i]) <==> IsPlain(id[i]) {
      PlainIsSafe(id[i]);
    }
  }

  lemma PlainIsSafe(c: char)
    ensures IsSafe(c) <==> IsPlain(c)
  {
    assert 'A' as int == 65 && 'Z' as int == 90 && 'a' as int == 97 && 'z' as int == 122 && '0' as int == 48;
    assert '9' as int == 57 && ' ' as int == 32 && '_' as int == 95 && '-' as int == 45;
  }

  /** Which of our orders a correlation id belongs to: the first that derives it. */
  function ClientOrderIdFor(digest: Digest, correlation: string, candidates: seq<string>): (id: Maybe<string>)
    ensures id.Some? ==> id.value in candidates && CorrelationId(digest, id.value) == correlation
    ensures id.None? <==> correlation == "" || forall c :: c in candidates ==> CorrelationId(digest, c) != correlation
  {
    if correlation == "" || candidates == [] then None
    else if CorrelationId(digest, candidates[0]) == correlation then Some(candidates[0])
    else ClientOrderIdFor(digest, correlation, candidates[1..])
  }

  /** The early-return search as it is written. */
  method FindClientOrderId(digest: Digest, correlation: string, candidates: seq<string>) returns (id: Maybe<string>)
    ensures id == ClientOrderIdFor(digest, correlation, candidates)
  {
    if correlation == "" {
      return None;
    }
    for i := 0 to |candidates|
      invariant ClientOrderIdFor(digest, correlation, candidates[i..])
        == ClientOrderIdFor(digest, correlation, candidates)
    {
      if CorrelationId(digest, candidates[i]) == correlation {
        return Some(candidates[i]);
      }
    }
    return None;
  }

  /** No digest is empty, and two of these ids never share a correlation id. */
  ghost predicate Distinguishes(digest: Digest, ids: set<string>)
  {
    && (forall a, b :: a in ids && b in ids && CorrelationId(digest, a) == CorrelationId(digest, b) ==> a == b)
    && (forall a :: a in ids ==> CorrelationId(digest, a) != "")
  }

  /** Recomputation maps every id of the session back to itself, whatever order the candidates come in. */
  lemma CorrelationMapsBack(digest: Digest, id: string, candidates: seq<string>)
    requires Distinguishes(digest, set c | c in candidates) && id in candidates
    ensures ClientOrderIdFor(digest, CorrelationId(digest, id), candidates) == Some(id)
  {
    assert id in set c | c in candidates;
    var found := ClientOrderIdFor(digest, CorrelationId(digest, id), candidates);
    assert found.Some?;
    assert found.value in set c | c in candidates;
  }

  /** Exactly how two ids can collide: two equal digests, or a digest equal to an id sent as itself. */
  lemma WhenIdsCollide(digest: Digest, a: string, b: string)
    requires a != b
    ensures CorrelationId(digest, a) == CorrelationId(digest, b) <==>
      || (!SentAsItself(a) && !SentAsItself(b) && digest(a) == digest(b))
      || (SentAsItself(a) && !SentAsItself(b) && a == digest(b))
      || (!SentAsItself(a) && SentAsItself(b) && digest(a) == b)
  {
  }

  // ----- units and lots ----------------------------------------------------

  /** A quantity of contracts. */
  type Quantity = q: real | q >= 0.0

  /** Contracts to the units Dhan counts in; `int()` drops any fraction. */
  function UnitsFor(lot: Lot, quantity: Quantity): nat
  {
    (quantity * lot as real).Floor
  }

  /** Why a row makes reading its book raise. */
  datatype ReportError = NotAnObject | MissingKey | Unconvertible | NotWholeLots | UnknownStatus

  /** Units to contracts, refusing a remainder. */
  function LotsFor(lot: Lot, units: int): Result<nat, ReportError>
  {
    var count := if units < 0 then -units else units;
    if count % lot != 0 then Err(NotWholeLots) else Ok(count / lot)
  }

  /** Units and lots invert each other on whole quantities and on no others. */
  lemma LotsInvertUnits(lot: Lot, q: Quantity)
    ensures
      (LotsFor(lot, UnitsFor(lot, q)).Ok? && LotsFor(lot, UnitsFor(lot, q)).value as real == q) <==>
      q == q.Floor as real
  {
    if q == q.Floor as real {
      var n := q.Floor;
      assert q * lot as real == (n * lot) as real;
      assert UnitsFor(lot, q) == n * lot;
      WholeMultiple(n, lot);
    }
  }

  lemma WholeMultiple(n: nat, lot: Lot)
    ensures (n * lot) % lot == 0 && (n * lot) / lot == n
  {
    DivIs(n * lot, lot, n, 0);
  }

  /** Whatever Dhan reports in whole lots is those lots' units again, up to the sign Dhan gave it. */
  lemma UnitsInvertLots(lot: Lot, units: int)
    requires LotsFor(lot, units).Ok?
    ensures UnitsFor(lot, LotsFor(lot, units).value as real) == if units < 0 then -units else units
  {
    var n, count := LotsFor(lot, units).value, if units < 0 then -units else units;
    assert count == n * lot;
    assert (n as real) * lot as real == (n * lot) as real;
  }

  // ----- placing -----------------------------------------------------------

  datatype Side = BUY | SELL | NO_SIDE
  datatype OrderType = LIMIT | MARKET | STOP_LIMIT | STOP_MARKET | OTHER_TYPE
  datatype TimeInForce = GTC | DAY | IOC | OTHER_TIF

  datatype Order = Order(
    id: string,
    instrument: InstrumentId,
    side: Side,
    orderType: OrderType,
    tif: TimeInForce,
    quantity: Quantity,
    price: Maybe<real>,
    trigger: Maybe<real>,
    display: Maybe<Quantity>)

  /** Why a request will not leave the process. */
  datatype Refusal =
    | SubmissionDisabled
    | Degraded
    | NotInCache
    | NotABracket
    | UnknownInstrument
    | BadOrderType
    | NoTriggerPrice
    | BadSide
    | NoSegment
    | BadProductType
    | BadValidity
    | BadAmoTime
    | SameSideLegs
    | InvertedLegs
    | TooFewLegs

  function DhanOrderType(t: OrderType): Maybe<string>
  {
    match t
    case LIMIT => Some("LIMIT")
    case MARKET => Some("MARKET")
    case STOP_LIMIT => Some("STOP_LOSS")
    case STOP_MARKET => Some("STOP_LOSS_MARKET")
    case OTHER_TYPE => None
  }

  function Validity(t: TimeInForce): Maybe<string>
  {
    match t
    case GTC => Some("DAY")
    case DAY => Some("DAY")
    case IOC => Some("IOC")
    case OTHER_TIF => None
  }

  function SideName(s: Side): Maybe<string>
  {
    match s case BUY => Some("BUY") case SELL => Some("SELL") case NO_SIDE => None
  }

  const PRODUCT_TYPES: set<string> := {"CNC", "INTRADAY", "MARGIN", "MTF", "CO", "BO"}
  const AMO_TIMES: set<string> := {"PRE_OPEN", "OPEN", "OPEN_30", "OPEN_60"}

  predicate NeedsPrice(t: OrderType)
  {
    t.LIMIT? || t.STOP_LIMIT?
  }

  predicate NeedsTrigger(t: OrderType)
  {
    t.STOP_LIMIT? || t.STOP_MARKET?
  }

  /** The keys of a placement: of any, of an ordinary one, of a super order, and of a second resting leg. */
  datatype Key =
    | DhanClientId | CorrelationKey | TransactionType | ExchangeSegment | ProductType | OrderTypeKey
    | ValidityKey | SecurityId | QuantityKey | AfterMarketOrder
    | PriceKey | TriggerPrice | DisclosedQuantity | AmoTime
    | TargetPrice | StopLossPrice | TrailingJump
    | OrderFlag | SecondPrice | SecondTrigger | SecondQuantity

  /** A JSON value of the request: text, a count or an amount printed in decimal, or a flag. */
  datatype Field = Text(s: string) | Count(n: nat) | Amount(r: real) | Flag(b: bool)
  type Payload = map<Key, Field>

  datatype Settings = Settings(clientId: string, productType: string, afterMarket: bool, amoTime: string)

  /** The first of the payload's checks to fail. */
  function PlaceRefusal(order: Order, instrument: Instrument, s: Settings): (r: Maybe<Refusal>)
  {
    if DhanOrderType(order.orderType).None? then Some(BadOrderType)
    else if NeedsTrigger(order.orderType) && order.trigger.None? then Some(NoTriggerPrice)
    else if SideName(order.side).None? then Some(BadSide)
    else if SegmentName(instrument.segmentCode).None? then Some(NoSegment)
    else if s.productType !in PRODUCT_TYPES then Some(BadProductType)
    else if Validity(order.tif).None? then Some(BadValidity)
    else if s.afterMarket && s.amoTime !in AMO_TIMES then Some(BadAmoTime)
    else None
  }

  function AsText(t: Maybe<string>): Maybe<Field>
  {
    if t.None? then None else Some(Text(t.value))
  }

  function AsAmount(r: Maybe<real>): Maybe<Field>
  {
    if r.None? then None else Some(Amount(r.value))
  }

  /** Where an endpoint requires a price, one that does not apply is sent empty. */
  function Printed(r: Maybe<real>): Field
  {
    if r.None? then Text("") else Amount(r.value)
  }

  /**
   * What a placement says under each key. A field that does not apply is
   * absent, never sent empty.
   */
  function Says(digest: Digest, order: Order, instrument: Instrument, securityId: string, s: Settings, key: Key)
      : Maybe<Field>
  {
    match key
    case DhanClientId => Some(Text(s.clientId))
    case CorrelationKey => Some(Text(CorrelationId(digest, order.id)))
    case TransactionType => AsText(SideName(order.side))
    case ExchangeSegment => AsText(SegmentName(instrument.segmentCode))
    case ProductType => Some(Text(s.productType))
    case OrderTypeKey => AsText(DhanOrderType(order.orderType))
    case ValidityKey => AsText(Validity(order.tif))
    case SecurityId => Some(Text(securityId))
    case QuantityKey => Some(Count(UnitsFor(instrument.multiplier, order.quantity)))
    case AfterMarketOrder => Some(Flag(s.afterMarket))
    case PriceKey => if NeedsPrice(order.orderType) then AsAmount(order.price) else None
    case TriggerPrice => if NeedsTrigger(order.orderType) then AsAmount(order.trigger) else None
    case DisclosedQuantity =>
      if order.display.Some? && order.display.value != 0.0
      then Some(Count(UnitsFor(instrument.multiplier, order.display.value))) else None
    case AmoTime => if s.afterMarket then Some(Text(s.amoTime)) else None
    case _ => None
  }

  function Under(p: Payload, key: Key): Maybe<Field>
  {
    if key in p then Some(p[key]) else None
  }

  /** POST /v2/orders, built key by key. */
  method PlacePayload(digest: Digest, order: Order, instrument: Instrument, securityId: string, s: Settings)
      returns (r: Result<Payload, Refusal>)
    ensures r.Err? <==> PlaceRefusal(order, instrument, s).Some?
    ensures r.Err? ==> Some(r.error) == PlaceRefusal(order, instrument, s)
    ensures r.Ok? ==> forall key :: Under(r.value, key) == Says(digest, order, instrument, securityId, s, key)
  {
    hide CorrelationId, UnitsFor, SegmentName, SideName, Validity, DhanOrderType, NeedsPrice, NeedsTrigger;
    var dhanType := DhanOrderType(order.orderType);
    if dhanType.None? {
      return Err(BadOrderType);
    }
    var price := if NeedsPrice(order.orderType) then order.price else None;
    var trigger := if NeedsTrigger(order.orderType) then order.trigger else None;
    if NeedsTrigger(order.orderType) && trigger.None? {
      return Err(NoTriggerPrice);
    }
    var side, segment, validity := SideName(order.side), SegmentName(instrument.segmentCode), Validity(order.tif);
    if side.None? {
      return Err(BadSide);
    }
    if segment.None? {
      return Err(NoSegment);
    }
    if s.productType !in PRODUCT_TYPES {
      return Err(BadProductType);
    }
    if validity.None? {
      return Err(BadValidity);
    }
    var payload: Payload := map[
      DhanClientId := Text(s.clientId),
      CorrelationKey := Text(CorrelationId(digest, order.id)),
      TransactionType := Text(side.value),
      ExchangeSegment := Text(segment.value),
      ProductType := Text(s.productType),
      OrderTypeKey := Text(dhanType.value),
      ValidityKey := Text(validity.value),
      SecurityId := Text(securityId),
      QuantityKey := Count(UnitsFor(instrument.multiplier, order.quantity)),
      AfterMarketOrder := Flag(s.afterMarket)];
    if price.Some? {
      payload := payload[PriceKey := Amount(price.value)];
    }
    if trigger.Some? {
      payload := payload[TriggerPrice := Amount(trigger.value)];
    }
    if order.display.Some? && order.display.value != 0.0 {
      payload := payload[DisclosedQuantity := Count(UnitsFor(instrument.multiplier, order.display.value))];
    }
    if s.afterMarket {
      if s.amoTime !in AMO_TIMES {
        return Err(BadAmoTime);
      }
      payload := payload[AmoTime := Text(s.amoTime)];
    }
    return Ok(payload);
  }

  /** Exactly which orders the ordinary endpoint is sent. */
  lemma {:induction false} WhichOrdersAreSent(order: Order, instrument: Instrument, s: Settings)
    ensures PlaceRefusal(order, instrument, s).None? <==>
      && (order.side.BUY? || order.side.SELL?)
      && (order.orderType.LIMIT? || order.orderType.MARKET?
          || order.orderType.STOP_LIMIT? || order.orderType.STOP_MARKET?)
      && (order.orderType.STOP_LIMIT? || order.orderType.STOP_MARKET? ==> order.trigger.Some?)
      && (order.tif.DAY? || order.tif.GTC? || order.tif.IOC?)
      && instrument.segmentCode in {0, 1, 2, 3, 4, 5, 7, 8}
      && s.productType in {"CNC", "INTRADAY", "MARGIN", "MTF", "CO", "BO"}
      && (s.afterMarket ==> s.amoTime in {"PRE_OPEN", "OPEN", "OPEN_30", "OPEN_60"})
  {
  }

  /** The word under a key, and no other. */
  predicate IsWord(field: Maybe<Field>, word: string)
  {
    field == Some(Text(word))
  }

  /** What a placement says in Dhan's words: the side it trades, its type and its validity, each the order's own. */
  lemma {:induction false} WhatOrdersSay(
    digest: Digest, order: Order, instrument: Instrument, securityId: string, s: Settings)
    requires PlaceRefusal(order, instrument, s).None?
    ensures
      var side := Says(digest, order, instrument, securityId, s, TransactionType);
      (IsWord(side, "BUY") <==> order.side.BUY?) && (IsWord(side, "SELL") <==> order.side.SELL?)
    ensures
      var kind := Says(digest, order, instrument, securityId, s, OrderTypeKey);
      && (IsWord(kind, "LIMIT") <==> order.orderType.LIMIT?)
      && (IsWord(kind, "MARKET") <==> order.orderType.MARKET?)
      && (IsWord(kind, "STOP_LOSS") <==> order.orderType.STOP_LIMIT?)
      && (IsWord(kind, "STOP_LOSS_MARKET") <==> order.orderType.STOP_MARKET?)
    ensures
      var validity := Says(digest, order, instrument, securityId, s, ValidityKey);
      (IsWord(validity, "IOC") <==> order.tif.IOC?) && (IsWord(validity, "DAY") <==> order.tif.DAY? || order.tif.GTC?)
  {
    hide CorrelationId, UnitsFor, SegmentName, NeedsPrice, NeedsTrigger;
  }

  /** An amount is said exactly when there is one and the endpoint wants it. */
  predicate IsAmount(field: Maybe<Field>, amount: Maybe<real>, wanted: bool)
  {
    field == if wanted && amount.Some? then Some(Amount(amount.value)) else None
  }

  /**
   * What a placement says in figures: a price where its type has one, a trigger
   * where it waits for one, a window only after hours, counts in units of the
   * lot; and nothing of a bracket or a second leg.
   */
  lemma {:induction false} WhatOrdersCount(
    digest: Digest, order: Order, instrument: Instrument, securityId: string, s: Settings, key: Key)
    requires PlaceRefusal(order, instrument, s).None?
    ensures
      var says := Says(digest, order, instrument, securityId, s, key);
      && (key.PriceKey? ==> IsAmount(says, order.price, order.orderType.LIMIT? || order.orderType.STOP_LIMIT?))
      && (key.TriggerPrice? ==>
           IsAmount(says, order.trigger, order.orderType.STOP_LIMIT? || order.orderType.STOP_MARKET?))
      && (key.AmoTime? ==> says == if s.afterMarket then Some(Text(s.amoTime)) else None)
      && (key.QuantityKey? ==> says == Some(Count(UnitsFor(instrument.multiplier, order.quantity))))
      && (key.DisclosedQuantity? && order.display.Some? && order.display.value > 0.0 ==>
           says == Some(Count(UnitsFor(instrument.multiplier, order.display.value))))
      && (key.DisclosedQuantity? && (order.display.None? || order.display.value == 0.0) ==> says.None?)
      && (key in {TargetPrice, StopLossPrice, TrailingJump, OrderFlag, SecondPrice, SecondTrigger, SecondQuantity} ==>
           says.None?)
  {
    hide CorrelationId, SegmentName, DhanOrderType, Validity, SideName, UnitsFor;
  }

  /**
   * A placement holds an empty string under a key exactly when what it is told
   * for that key is empty: its client id, correlation id or security id. What
   * does not apply is never sent empty.
   */
  lemma WhenOrdersSendNothing(
    digest: Digest, order: Order, instrument: Instrument, securityId: string, s: Settings, key: Key)
    requires PlaceRefusal(order, instrument, s).None?
    ensures Says(digest, order, instrument, securityId, s, key) == Some(Text("")) <==>
      || (key == DhanClientId && s.clientId == "")
      || (key == CorrelationKey && CorrelationId(digest, order.id) == "")
      || (key == SecurityId && securityId == "")
  {
    hide CorrelationId, UnitsFor;
  }

  /** What the ordinary endpoint needs: told nothing empty, a placement holds no empty string at all. */
  lemma NothingIsSentEmpty(digest: Digest, order: Order, instrument: Instrument, securityId: string, s: Settings)
    requires PlaceRefusal(order, instrument, s).None?
    requires s.clientId != "" && securityId != "" && CorrelationId(digest, order.id) != ""
    ensures forall key :: Says(digest, order, instrument, securityId, s, key) != Some(Text(""))
  {
    hide Says, CorrelationId;
    forall key ensures Says(digest, order, instrument, securityId, s, key) != Some(Text("")) {
      WhenOrdersSendNothing(digest, order, instrument, securityId, s, key);
    }
  }

  // ----- rows read back ----------------------------------------------------

  datatype OrderStatus = SUBMITTED | ACCEPTED | REJECTED | CANCELED | PARTIALLY_FILLED | FILLED | EXPIRED

  function StatusNamed(raw: string): Maybe<OrderStatus>
  {
    if raw == "TRANSIT" then Some(SUBMITTED)
    else if raw == "PENDING" then Some(ACCEPTED)
    else if raw == "REJECTED" then Some(REJECTED)
    else if raw == "CANCELLED" then Some(CANCELED)
    else if raw == "PART_TRADED" then Some(PARTIALLY_FILLED)
    else if raw == "TRADED" then Some(FILLED)
    else if raw == "EXPIRED" then Some(EXPIRED)
    else None
  }

  /** A status as Dhan's word has it, each of the seven by its own word alone. */
  predicate IsWorded(status: OrderStatus, word: string)
  {
    && (status.SUBMITTED? <==> word == "TRANSIT")
    && (status.ACCEPTED? <==> word == "PENDING")
    && (status.PARTIALLY_FILLED? <==> word == "PART_TRADED")
    && (status.FILLED? <==> word == "TRADED")
    && (status.CANCELED? <==> word == "CANCELLED")
    && (status.REJECTED? <==> word == "REJECTED")
    && (status.EXPIRED? <==> word == "EXPIRED")
  }

  const OPEN_WORDS: set<string> := {"TRANSIT", "PENDING", "PART_TRADED"}
  const CLOSED_WORDS: set<string> := {"TRADED", "CANCELLED", "REJECTED", "EXPIRED"}

  /** The order may still trade. */
  predicate IsOpen(status: OrderStatus)
  {
    status.SUBMITTED? || status.ACCEPTED? || status.PARTIALLY_FILLED?
  }

  lemma {:induction false} StatusesAreWorded(word: string)
    ensures StatusNamed(word).Some? <==> word in OPEN_WORDS || word in CLOSED_WORDS
    ensures StatusNamed(word).Some? ==>
      IsWorded(StatusNamed(word).value, word) && (IsOpen(StatusNamed(word).value) <==> word in OPEN_WORDS)
  {
  }

  /**
   * One row of GET /v2/orders. An absent text, price or average is "" and an
   * absent count or time 0; None is an orderId that is missing, or a count, a
   * price, an average or a time that does not convert.
   */
  datatype OrderRow = OrderRow(
    orderId: Maybe<string>,
    correlationId: string,
    wire: WireName,
    transactionType: string,
    orderType: string,
    validity: string,
    orderStatus: string,
    quantity: Maybe<int>,
    filledQty: Maybe<int>,
    price: Maybe<string>,
    trigger: Maybe<string>,
    average: Maybe<string>,
    errorDescription: string,
    created: Maybe<int>,
    updated: Maybe<int>)

  datatype OrderReport = OrderReport(
    instrument: InstrumentId,
    venueOrderId: string,
    clientOrderId: Maybe<string>,
    side: Side,
    orderType: OrderType,
    tif: TimeInForce,
    status: OrderStatus,
    quantity: nat,
    filled: nat,
    price: string,
    trigger: string,
    average: string,
    cancelReason: Maybe<string>,
    accepted: int,
    last: int)

  function SideOf(transactionType: string): Side
  {
    if transactionType == "BUY" then BUY else SELL
  }

  function CountedLots(lot: Lot, units: Maybe<int>): Result<nat, ReportError>
  {
    if units.None? then Err(Unconvertible) else LotsFor(lot, units.value)
  }

  predicate BadCount(lot: Lot, units: Maybe<int>)
  {
    units.None? || (if units.value < 0 then -units.value else units.value) % lot != 0
  }

  lemma WhenCountsAreBad(lot: Lot, units: Maybe<int>)
    ensures CountedLots(lot, units).Err? <==> BadCount(lot, units)
  {
  }

  /** The later of a row's two times, when it has it. */
  function LastOf(created: int, updated: int): int
  {
    if updated != 0 then updated else created
  }

  const DEAD_STATUSES: set<string> := {"REJECTED", "CANCELLED", "EXPIRED"}

  /** `order_status_report`, raising at the first key in the order it reads them. */
  function OrderStatusReport(digest: Digest, row: OrderRow, instrument: Instrument, ids: seq<string>)
      : (r: Result<OrderReport, ReportError>)
  {
    var status := StatusNamed(row.orderStatus);
    var quantity := CountedLots(instrument.multiplier, row.quantity);
    var filled := CountedLots(instrument.multiplier, row.filledQty);
    if row.orderId.None? then Err(MissingKey)
    else if status.None? then Err(UnknownStatus)
    else if quantity.Err? then Err(quantity.error)
    else if filled.Err? then Err(filled.error)
    else if row.price.None? || row.trigger.None? || row.average.None? then Err(Unconvertible)
    else if row.created.None? || row.updated.None? then Err(Unconvertible)
    else
      Ok(OrderReport(
        instrument.id, row.orderId.value, ClientOrderIdFor(digest, row.correlationId, ids),
        SideOf(row.transactionType), if row.orderType == "MARKET" then MARKET else LIMIT,
        if row.validity == "IOC" then IOC else DAY, status.value, quantity.value, filled.value,
        row.price.value, row.trigger.value, row.average.value,
        if row.errorDescription != "" && row.orderStatus in DEAD_STATUSES then Some(row.errorDescription) else None,
        row.created.value, LastOf(row.created.value, row.updated.value)))
  }

  /**
   * What a report says is its row's own word: the side, the status, the type
   * and validity, the three prices each in its place, the reason only of a dead
   * order, and the later time where there is one.
   */
  lemma {:induction false} ReportsSayTheirRows(digest: Digest, row: OrderRow, instrument: Instrument, ids: seq<string>)
    requires OrderStatusReport(digest, row, instrument, ids).Ok?
    ensures
      var r := OrderStatusReport(digest, row, instrument, ids).value;
      && r.instrument == instrument.id && Some(r.venueOrderId) == row.orderId
      && (r.side.BUY? <==> row.transactionType == "BUY") && (r.side.SELL? <==> row.transactionType != "BUY")
      && IsWorded(r.status, row.orderStatus) && (IsOpen(r.status) <==> row.orderStatus in OPEN_WORDS)
      && (r.orderType.MARKET? <==> row.orderType == "MARKET") && (r.orderType.LIMIT? <==> row.orderType != "MARKET")
      && (r.tif.IOC? <==> row.validity == "IOC") && (r.tif.DAY? <==> row.validity != "IOC")
      && Some(r.price) == row.price && Some(r.trigger) == row.trigger && Some(r.average) == row.average
      && (r.cancelReason.Some? <==>
            row.errorDescription != "" && row.orderStatus in {"REJECTED", "CANCELLED", "EXPIRED"})
      && (r.cancelReason.Some? ==> r.cancelReason.value == row.errorDescription)
      && Some(r.accepted) == row.created && Some(r.last) == (if row.updated == Some(0) then row.created else row.updated)
  {
    hide ClientOrderIdFor, CountedLots;
    StatusesAreWorded(row.orderStatus);
  }

  /**
   * A row that echoes what was sent reports the order's own side. Its type comes
   * back exactly when it is a limit or a market order, and its validity exactly
   * when it is not good till cancelled, which goes out as a day order.
   */
  lemma {:induction false} EchoedTermsComeBack(
    digest: Digest, order: Order, settings: Settings, row: OrderRow, instrument: Instrument, ids: seq<string>)
    requires PlaceRefusal(order, instrument, settings).None?
    requires OrderStatusReport(digest, row, instrument, ids).Ok?
    requires Some(row.transactionType) == SideName(order.side) && Some(row.orderType) == DhanOrderType(order.orderType)
    requires Some(row.validity) == Validity(order.tif)
    ensures
      var r := OrderStatusReport(digest, row, instrument, ids).value;
      && r.side == order.side
      && (r.orderType == order.orderType <==> order.orderType.LIMIT? || order.orderType.MARKET?)
      && (r.tif == order.tif <==> !order.tif.GTC?)
  {
    hide ClientOrderIdFor, CountedLots, StatusNamed, SegmentName;
  }

  /**
   * One row of GET /v2/trades. A key that is absent, or whose value does not
   * convert, is None; of the two timestamps, the one that is read.
   */
  datatype TradeRow = TradeRow(
    orderId: Maybe<string>, tradeId: Maybe<string>, wire: WireName, transactionType: string,
    units: Maybe<int>, price: Maybe<string>, stamp: Maybe<int>)

  datatype FillReport = FillReport(
    instrument: InstrumentId, venueOrderId: string, tradeId: string, side: Side, lots: nat, price: string, stamp: int)

  /** `fill_report`, raising at the first key in the order it reads them. */
  function TradeReport(row: TradeRow, instrument: Instrument): (r: Result<FillReport, ReportError>)
  {
    if row.orderId.None? || row.tradeId.None? then Err(MissingKey)
    else
      var lots := CountedLots(instrument.multiplier, row.units);
      if lots.Err? then Err(lots.error)
      else if row.price.None? || row.stamp.None? then Err(Unconvertible)
      else
        Ok(FillReport(
          instrument.id, row.orderId.value, row.tradeId.value, SideOf(row.transactionType), lots.value,
          row.price.value, row.stamp.value))
  }

  /** What a fill says is its trade's own word, its side and its two ids each in its place. */
  lemma {:induction false} FillsSayTheirTrades(row: TradeRow, instrument: Instrument)
    requires TradeReport(row, instrument).Ok?
    ensures
      var f := TradeReport(row, instrument).value;
      && (f.side.BUY? <==> row.transactionType == "BUY") && (f.side.SELL? <==> row.transactionType != "BUY")
      && f.instrument == instrument.id && Some(f.venueOrderId) == row.orderId && Some(f.tradeId) == row.tradeId
      && Some(f.price) == row.price && Some(f.stamp) == row.stamp
  {
    hide CountedLots;
  }
}
