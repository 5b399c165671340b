/** Forever orders: Dhan's Good-Till-Triggered, alone or as two legs of which one cancels the other. */
module ForeverOrders {
  import opened Providers
  import opened Orders
  import opened SuperOrders
  import opened Wrappers

  const FOREVER_PRODUCT_TYPES: set<string> := {"CNC", "MTF"}

  /** The kind of order that is left when the waiting is over: the stop in its name was the waiting. */
  function ForeverType(t: OrderType): Maybe<string>
  {
    match t
    case LIMIT => Some("LIMIT")
    case STOP_LIMIT => Some("LIMIT")
    case MARKET => Some("MARKET")
    case STOP_MARKET => Some("MARKET")
    case OTHER_TYPE => None
  }

  /** `forever_orders.place_payload`'s checks, in order. */
  function ForeverCheck(order: Order, instrument: Instrument, productType: string, second: Maybe<Order>): Check
  {
    if ForeverType(order.orderType).None? then Refuses(BadOrderType)
    else if order.trigger.None? then Refuses(NoTriggerPrice)
    else if SegmentName(instrument.segmentCode).None? then Refuses(NoSegment)
    else if productType !in FOREVER_PRODUCT_TYPES then Refuses(BadProductType)
    else if Validity(order.tif).None? then Refuses(BadValidity)
    else if second.Some? && second.value.price.None? then Escapes
    else if second.Some? && second.value.trigger.None? then Refuses(NoTriggerPrice)
    else Passes
  }

  /** What a forever order says under each key; the second leg's only when there is one. */
  function ForeverSays(
    digest: Digest, order: Order, second: Maybe<Order>, instrument: Instrument, securityId: string, clientId: string,
    productType: string, key: Key): Maybe<Field>
  {
    match key
    case DhanClientId => Some(Text(clientId))
    case CorrelationKey => Some(Text(CorrelationId(digest, order.id)))
    case OrderFlag => Some(Text(if second.Some? then "OCO" else "SINGLE"))
    case TransactionType => Some(Text(if order.side.BUY? then "BUY" else "SELL"))
    case ExchangeSegment => AsText(SegmentName(instrument.segmentCode))
    case ProductType => Some(Text(productType))
    case OrderTypeKey => AsText(ForeverType(order.orderType))
    case ValidityKey => AsText(Validity(order.tif))
    case SecurityId => Some(Text(securityId))
    case QuantityKey => Some(Count(UnitsFor(instrument.multiplier, order.quantity)))
    case PriceKey => Some(Printed(order.price))
    case TriggerPrice => AsAmount(order.trigger)
    case DisclosedQuantity =>
      if order.display.Some? && order.display.value != 0.0
      then Some(Count(UnitsFor(instrument.multiplier, order.display.value))) else None
    case SecondPrice => if second.Some? then AsAmount(second.value.price) else None
    case SecondTrigger => if second.Some? then AsAmount(second.value.trigger) else None
    case SecondQuantity =>
      if second.Some? then Some(Count(UnitsFor(instrument.multiplier, second.value.quantity))) else None
    case _ => None
  }

  /** POST /v2/forever/orders, built key by key: the second leg's price is read before its trigger is asked for. */
  method PlacePayload(
    digest: Digest, order: Order, second: Maybe<Order>, instrument: Instrument, securityId: string, clientId: string,
    productType: string) returns (check: Check, payload: Payload)
    ensures check == ForeverCheck(order, instrument, productType, second)
    ensures check.Passes? ==>
      forall key :: Under(payload, key)
        == ForeverSays(digest, order, second, instrument, securityId, clientId, productType, key)
  {
    hide CorrelationId, UnitsFor, SegmentName, Validity, ForeverType;
    payload := map[];
    var becomes := ForeverType(order.orderType);
    if becomes.None? {
      return Refuses(BadOrderType), payload;
    }
    if order.trigger.None? {
      return Refuses(NoTriggerPrice), payload;
    }
    var segment, validity := SegmentName(instrument.segmentCode), Validity(order.tif);
    if segment.None? {
      return Refuses(NoSegment), payload;
    }
    if productType !in FOREVER_PRODUCT_TYPES {
      return Refuses(BadProductType), payload;
    }
    if validity.None? {
      return Refuses(BadValidity), payload;
    }
    payload := map[
      DhanClientId := Text(clientId),
      CorrelationKey := Text(CorrelationId(digest, order.id)),
      OrderFlag := Text(if second.Some? then "OCO" else "SINGLE"),
      TransactionType := Text(if order.side.BUY? then "BUY" else "SELL"),
      ExchangeSegment := Text(segment.value),
      ProductType := Text(productType),
      OrderTypeKey := Text(becomes.value),
      ValidityKey := Text(validity.value),
      SecurityId := Text(securityId),
      QuantityKey := Count(UnitsFor(instrument.multiplier, order.quantity)),
      PriceKey := Printed(order.price),
      TriggerPrice := Amount(order.trigger.value)];
    if order.display.Some? && order.display.value != 0.0 {
      payload := payload[DisclosedQuantity := Count(UnitsFor(instrument.multiplier, order.display.value))];
    }
    if second.Some? {
      if second.value.price.None? {
        return Escapes, payload;
      }
      payload := payload[SecondPrice := Amount(second.value.price.value)];
      if second.value.trigger.None? {
        return Refuses(NoTriggerPrice), payload;
      }
      payload := payload[SecondTrigger := Amount(second.value.trigger.value)];
      payload := payload[SecondQuantity := Count(UnitsFor(instrument.multiplier, second.value.quantity))];
    }
    return Passes, payload;
  }

  /**
   * A forever order holds an empty string under a key exactly when what it is
   * told for that key is empty, or under its price when it has none.
   */
  lemma WhenForeverOrdersSendNothing(
    digest: Digest, order: Order, second: Maybe<Order>, instrument: Instrument, securityId: string, clientId: string,
    productType: string, key: Key)
    requires ForeverCheck(order, instrument, productType, second).Passes?
    ensures ForeverSays(digest, order, second, instrument, securityId, clientId, productType, key) == Some(Text("")) <==>
      || (key == DhanClientId && clientId == "")
      || (key == CorrelationKey && CorrelationId(digest, order.id) == "")
      || (key == SecurityId && securityId == "")
      || (key == PriceKey && order.price.None?)
  {
    hide CorrelationId, UnitsFor;
  }

  /** Told nothing empty, a forever order holds an empty string if and only if it has no price. */
  lemma WhenForeverOrdersSendEmpty(
    digest: Digest, order: Order, second: Maybe<Order>, instrument: Instrument, securityId: string, clientId: string,
    productType: string)
    requires ForeverCheck(order, instrument, productType, second).Passes?
    requires clientId != "" && securityId != "" && CorrelationId(digest, order.id) != ""
    ensures
      (exists key ::
        ForeverSays(digest, order, second, instrument, securityId, clientId, productType, key) == Some(Text("")))
      <==> order.price.None?
  {
    hide ForeverSays, CorrelationId, ForeverCheck;
    forall key {
      WhenForeverOrdersSendNothing(digest, order, second, instrument, securityId, clientId, productType, key);
    }
    WhenForeverOrdersSendNothing(digest, order, second, instrument, securityId, clientId, productType, PriceKey);
  }

  /** Exactly which orders may rest: the checks, whatever their order, ask for no more and no less than this. */
  lemma {:induction false} WhichOrdersMayRest(
    order: Order, instrument: Instrument, productType: string, second: Maybe<Order>)
    ensures ForeverCheck(order, instrument, productType, second).Passes? <==>
      && (order.orderType.LIMIT? || order.orderType.MARKET?
          || order.orderType.STOP_LIMIT? || order.orderType.STOP_MARKET?)
      && order.trigger.Some? && instrument.segmentCode in {0, 1, 2, 3, 4, 5, 7, 8}
      && productType in {"CNC", "MTF"} && (order.tif.DAY? || order.tif.GTC? || order.tif.IOC?)
      && (second.Some? ==> second.value.trigger.Some? && second.value.price.Some?)
  {
  }

  /**
   * What a forever order says: the type it becomes once its trigger fires, which
   * a stop in its own name does not change; its trigger; and a second leg's
   * three terms, each its own, exactly when there is one.
   */
  lemma {:induction false} WhatForeverOrdersSay(
    digest: Digest, order: Order, second: Maybe<Order>, instrument: Instrument, securityId: string, clientId: string,
    productType: string, key: Key)
    requires ForeverCheck(order, instrument, productType, second).Passes?
    ensures
      var says := ForeverSays(digest, order, second, instrument, securityId, clientId, productType, key);
      && (key.TransactionType? ==>
           (IsWord(says, "BUY") <==> order.side.BUY?) && (IsWord(says, "SELL") <==> !order.side.BUY?))
      && (key.OrderTypeKey? ==>
           && (IsWord(says, "LIMIT") <==> order.orderType.LIMIT? || order.orderType.STOP_LIMIT?)
           && (IsWord(says, "MARKET") <==> order.orderType.MARKET? || order.orderType.STOP_MARKET?))
      && (key.ValidityKey? ==>
           (IsWord(says, "IOC") <==> order.tif.IOC?) && (IsWord(says, "DAY") <==> order.tif.DAY? || order.tif.GTC?))
      && (key.OrderFlag? ==> (IsWord(says, "OCO") <==> second.Some?) && (IsWord(says, "SINGLE") <==> second.None?))
      && (key.PriceKey? && order.price.Some? ==> IsAmount(says, order.price, true))
      && (key.TriggerPrice? ==> IsAmount(says, order.trigger, true))
      && (key.QuantityKey? ==> says == Some(Count(UnitsFor(instrument.multiplier, order.quantity))))
      && (key.DisclosedQuantity? ==>
           says == if order.display.Some? && order.display.value > 0.0
                   then Some(Count(UnitsFor(instrument.multiplier, order.display.value))) else None)
      && (key in {SecondPrice, SecondTrigger, SecondQuantity} ==> (says.Some? <==> second.Some?))
      && (second.Some? ==>
           && (key.SecondPrice? ==> IsAmount(says, second.value.price, true))
           && (key.SecondTrigger? ==> IsAmount(says, second.value.trigger, true))
           && (key.SecondQuantity? ==> says == Some(Count(UnitsFor(instrument.multiplier, second.value.quantity)))))
      && (key in {AfterMarketOrder, AmoTime, TargetPrice, StopLossPrice, TrailingJump} ==> says.None?)
  {
    hide CorrelationId, SegmentName, UnitsFor;
  }
}
