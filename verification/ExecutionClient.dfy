/** The client as an object: the coroutines' two halves, proved against what Execution says they do. */
module ExecutionClient {
  import opened Symbology
  import opened Providers
  import opened Orders
  import opened SuperOrders
  import opened Execution
  import opened Reconciliation
  import opened Stream
  import ForeverOrders
  import opened Wrappers
  import Answers

  /** A modify command. Python's `or` passes over a zero as over an absent value. */
  datatype Modify = Modify(
    id: string, instrument: InstrumentId, venueOrderId: Maybe<string>,
    quantity: Maybe<Quantity>, price: Maybe<real>, trigger: Maybe<real>)

  function Else<T>(given: Maybe<T>, fallback: Maybe<T>): Maybe<T>
  {
    if given.Some? then given else fallback
  }

  function NonZero(x: Maybe<real>): Maybe<real>
  {
    if x == Some(0.0) then None else x
  }

  /** A modify is refused, or raises, or is sent. */
  datatype ModifyStep = Incomplete | NoPriceAttribute | Unmapped | Sends(quantity: Quantity, price: real)

  class DhanExecutionClient {
    const env: Env
    var isDegradedByIp: bool
    var log: seq<Event>
    var posts: seq<Post>
    var writes: seq<Write>
    var tradesAsked: seq<string>

    ghost function Value(): Client
      reads this
    {
      Client(isDegradedByIp, log, posts)
    }

    constructor (env: Env)
      ensures this.env == env && Value() == Client(false, [], [])
      ensures writes == [] && tradesAsked == []
    {
      this.env := env;
      isDegradedByIp, log, posts, writes, tradesAsked := false, [], [], [], [];
    }

    // ----- one order -------------------------------------------------------

    /** Building the payload is the validation; it is built with a placeholder id. */
    method RefusalFor(order: Order) returns (refusal: Maybe<Refusal>)
      ensures AsCheck(refusal) == OrderVerdict(env, isDegradedByIp, order)
    {
      hide MaySubmit, PlaceRefusal, Says;
      if !MaySubmit(env) {
        return Some(SubmissionDisabled);
      }
      if isDegradedByIp {
        return Some(Degraded);
      }
      if !InCache(env, order.instrument) {
        return Some(NotInCache);
      }
      if order.instrument !in env.maps.securityIds {
        return Some(UnknownInstrument);
      }
      var built := Orders.PlacePayload(env.digest, order, env.maps.instruments[order.instrument], "0", env.settings);
      return if built.Err? then Some(built.error) else None;
    }

    method StartSubmitOrder(order: Order) returns (sent: bool)
      modifies `log, `posts
      ensures Value() == Started(env, old(Value()), Single(order))
      ensures sent <==> OrderVerdict(env, old(isDegradedByIp), order).Passes?
    {
      hide MaySubmit, PlaceRefusal, CorrelationId, UnitsFor, SegmentName, DhanOrderType;
      var refusal := RefusalFor(order);
      if refusal.Some? {
        log := log + [Event(SubmitPath, order.id, Denied(refusal.value))];
        OneOrder(order, Denied(refusal.value));
        return false;
      }
      PassingCallsAreRoutable(env, isDegradedByIp, Single(order));
      var instrument := env.maps.instruments[order.instrument];
      var payload := Orders.PlacePayload(
        env.digest, order, instrument, env.maps.securityIds[order.instrument], env.settings);
      var p := payload.value;
      WhichOrdersAreSent(order, instrument, env.settings);
      log := log + [Event(SubmitPath, order.id, Submitted)];
      OneOrder(order, Submitted);
      var request := RequestIn(OrdersPath, p);
      posts := posts + [Post([order.id], request)];
      return true;
    }

    method FinishSubmitOrder(order: Order, t: Answers.Transport) returns (escaped: bool)
      modifies `isDegradedByIp, `log
      ensures Value() == Finished(env, old(Value()), Single(order), t)
      ensures escaped <==> Escaping(env, Single(order), t)
    {
      hide Answers.Write, Answers.Has, Answers.Get, Answers.Str;
      var answer := Answers.Write(t, env.render);
      if answer.Raised? && answer.error.Ambiguous? {
        return false;
      }
      if answer.Raised? {
        if answer.error.IPNotWhitelisted? {
          isDegradedByIp := true;
        }
        log := log + [Event(SubmitPath, order.id, Rejected(ByAnswer(answer.error)))];
        OneOrder(order, Rejected(ByAnswer(answer.error)));
        return false;
      }
      if !Answers.Has(answer.body, "orderId") {
        return true;
      }
      var orderId := Answers.Str(Answers.Get(answer.body, "orderId"), env.render);
      log := log + [Event(SubmitPath, order.id, Accepted(orderId))];
      assert Acceptances(Single(order), orderId) == [Accepted(orderId)];
      OneOrder(order, Accepted(orderId));
      return false;
    }

    // ----- a bracket -------------------------------------------------------

    /** The loop that tells every order of a list the same thing. */
    method Tell(orders: seq<Order>, fact: Fact)
      modifies `log
      ensures log == old(log) + Block(SubmitPath, IdsOf(orders), Repeat(fact, |orders|))
    {
      for k := 0 to |orders|
        invariant log == old(log) + Block(SubmitPath, IdsOf(orders), Repeat(fact, k))
      {
        log := log + [Event(SubmitPath, orders[k].id, fact)];
      }
    }

    /** `_super_order_refusal`: the gates, then the payload built with a placeholder id. */
    method SuperOrderRefusal(orders: seq<Order>, isBracket: bool) returns (check: Check)
      requires orders != []
      ensures check == ListVerdict(env, isDegradedByIp, orders, isBracket)
    {
      hide MaySubmit, SuperCheck, SuperSays;
      if !MaySubmit(env) {
        return Refuses(SubmissionDisabled);
      }
      if isDegradedByIp {
        return Refuses(Degraded);
      }
      if !isBracket {
        return Refuses(NotABracket);
      }
      var instrument := orders[0].instrument;
      if !InCache(env, instrument) {
        return Refuses(NotInCache);
      }
      if instrument !in env.maps.securityIds {
        return Refuses(UnknownInstrument);
      }
      if |orders| < 3 {
        return Refuses(TooFewLegs);
      }
      var payload;
      check, payload := SuperOrders.PlacePayload(
        env.digest, orders[0], orders[1], orders[2], env.maps.instruments[instrument], "0", env.settings);
    }

    method StartSubmitOrderList(orders: seq<Order>, isBracket: bool) returns (sent: bool, escaped: bool)
      requires orders != []
      modifies `log, `posts
      ensures Value() == Started(env, old(Value()), OrderList(orders, isBracket))
      ensures sent <==> ListVerdict(env, old(isDegradedByIp), orders, isBracket).Passes?
      ensures escaped <==> ListVerdict(env, old(isDegradedByIp), orders, isBracket).Escapes?
    {
      hide MaySubmit, SuperCheck, CorrelationId, UnitsFor, SegmentName, DhanOrderType;
      ghost var call := OrderList(orders, isBracket);
      var entry := orders[0];
      var check := SuperOrderRefusal(orders, isBracket);
      if check.Refuses? {
        Tell(orders, Denied(check.reason));
        return false, false;
      }
      if check.Escapes? {
        return false, true;
      }
      PassingCallsAreRoutable(env, isDegradedByIp, call);
      var instrument := env.maps.instruments[entry.instrument];
      var again, p := SuperOrders.PlacePayload(
        env.digest, entry, orders[1], orders[2], instrument, env.maps.securityIds[entry.instrument], env.settings);
      Tell(orders, Submitted);
      var request := RequestIn(SuperOrdersPath, p);
      posts := posts + [Post(IdsOf(orders), request)];
      return true, false;
    }

    method FinishSubmitOrderList(orders: seq<Order>, isBracket: bool, t: Answers.Transport) returns (escaped: bool)
      requires orders != []
      modifies `isDegradedByIp, `log
      ensures Value() == Finished(env, old(Value()), OrderList(orders, isBracket), t)
      ensures escaped <==> Escaping(env, OrderList(orders, isBracket), t)
    {
      hide Answers.Write, Answers.Has, Answers.Get, Answers.Str, LegVenueOrderId;
      ghost var call := OrderList(orders, isBracket);
      var answer := Answers.Write(t, env.render);
      if answer.Raised? && answer.error.Ambiguous? {
        return false;
      }
      if answer.Raised? {
        if answer.error.IPNotWhitelisted? {
          isDegradedByIp := true;
        }
        Tell(orders, Rejected(ByAnswer(answer.error)));
        return false;
      }
      if !Answers.Has(answer.body, "orderId") {
        return true;
      }
      var orderId := Answers.Str(Answers.Get(answer.body, "orderId"), env.render);
      ghost var facts := Acceptances(call, orderId);
      var k := 0;
      while k < |orders| && k < |LEGS|
        invariant 0 <= k <= |facts| && isDegradedByIp == old(isDegradedByIp)
        invariant log == old(log) + Block(SubmitPath, IdsOf(orders), facts[..k])
      {
        log := log + [Event(SubmitPath, orders[k].id, Accepted(LegVenueOrderId(orderId, LEGS[k])))];
        k := k + 1;
      }
      assert facts[..k] == facts;
      return |orders| != |LEGS|;
    }

    // ----- an order that rests past the close ------------------------------

    method StartForeverOrder(order: Order, productType: string, second: Maybe<Order>)
        returns (sent: bool, escaped: bool)
      modifies `log, `posts
      ensures Value() == Started(env, old(Value()), Forever(order, productType, second))
      ensures sent <==> ForeverVerdict(env, old(isDegradedByIp), order, productType, second).Passes?
      ensures escaped <==> ForeverVerdict(env, old(isDegradedByIp), order, productType, second).Escapes?
    {
      hide MaySubmit, ForeverOrders.ForeverCheck, ForeverOrders.ForeverType, CorrelationId, UnitsFor, SegmentName;
      ghost var call := Forever(order, productType, second);
      var gate: Maybe<Refusal> := if MaySubmit(env) then None else Some(SubmissionDisabled);
      if gate.None? && !InCache(env, order.instrument) {
        gate := Some(NotInCache);
      }
      if gate.None? && isDegradedByIp {
        gate := Some(Degraded);
      }
      var p: Payload := map[];
      if gate.None? {
        if order.instrument !in env.maps.securityIds {
          gate := Some(UnknownInstrument);
        } else {
          var check;
          check, p := ForeverOrders.PlacePayload(
            env.digest, order, second, env.maps.instruments[order.instrument], env.maps.securityIds[order.instrument],
            env.settings.clientId, productType);
          if check.Escapes? {
            return false, true;
          }
          gate := if check.Refuses? then Some(check.reason) else None;
        }
      }
      OneId(call, order);
      if gate.Some? {
        log := log + [Event(SubmitPath, order.id, Denied(gate.value))];
        OneEvent(order.id, Denied(gate.value));
        return false, false;
      }
      PassingCallsAreRoutable(env, isDegradedByIp, call);
      log := log + [Event(SubmitPath, order.id, Submitted)];
      OneEvent(order.id, Submitted);
      var request := RequestIn(ForeverOrdersPath, p);
      posts := posts + [Post([order.id], request)];
      return true, false;
    }

    method FinishForeverOrder(order: Order, productType: string, second: Maybe<Order>, t: Answers.Transport)
        returns (escaped: bool)
      modifies `isDegradedByIp, `log
      ensures Value() == Finished(env, old(Value()), Forever(order, productType, second), t)
      ensures escaped <==> Escaping(env, Forever(order, productType, second), t)
    {
      escaped := FinishSubmitOrder(order, t);
      OneCall(env, order, productType, second, t);
    }

    // ----- the order-update stream -----------------------------------------

    /** Up to the read of trades, if the frame leads to one: of the order number the frame names. */
    method HandleOrderUpdate(frame: Frame, cache: Cache) returns (asks: Maybe<Order>, raised: bool)
      modifies `log, `tradesAsked
      ensures raised <==> React(env, cache, frame).Raises?
      ensures asks.Some? <==> React(env, cache, frame).Asks?
      ensures asks.Some? ==>
        React(env, cache, frame).order == asks.value
        && tradesAsked == old(tradesAsked) + [React(env, cache, frame).orderNo]
      ensures asks.None? ==> tradesAsked == old(tradesAsked)
      ensures log == old(log) + if React(env, cache, frame).Tells? then React(env, cache, frame).events else []
    {
      hide StatusNamed, Upper, Parse;
      var update := Parse(frame);
      if update.Raised? {
        return None, true;
      }
      if !update.Update? {
        return None, false;
      }
      var id := FindClientOrderId(env.digest, update.correlationId, cache.ids);
      if id.None? || id.value !in cache.orders {
        return None, false;
      }
      var order := cache.orders[id.value];
      if IsTraded(update.status) {
        if !InCache(env, order.instrument) {
          return None, false;
        }
        tradesAsked := tradesAsked + [update.venueOrderId];
        return Some(order), false;
      }
      var fact := Announced(update);
      if fact.Some? {
        log := log + [Event(StreamPath, id.value, fact.value)];
      }
      return None, false;
    }

    /** Every report is built before any fill is said. */
    method EmitFillsFor(order: Order, trades: Trades) returns (raised: bool)
      modifies `log
      ensures log == old(log) + FillsSaid(env, order, trades)
      ensures raised <==> trades.TradeRows? && Fills(env, trades.rows).Err?
    {
      hide Collected;
      if trades.TradesUnread? {
        return false;
      }
      var reports := RowsToReports(trades.rows, ResolveTrade(env), BuildTrade());
      if reports.Err? {
        return true;
      }
      for k := 0 to |reports.value|
        invariant log == old(log) + FillEvents(order.id, reports.value[..k])
      {
        log := log + [Event(StreamPath, order.id, Filled(reports.value[k]))];
      }
      assert reports.value[..|reports.value|] == reports.value;
      return false;
    }

    // ----- cancelling and modifying ----------------------------------------

    method StartCancelOrder(id: string, venueOrderId: Maybe<string>) returns (sent: bool)
      modifies `log, `writes
      ensures sent <==> venueOrderId.Some?
      ensures sent ==> log == old(log) && writes == old(writes) + [Delete(venueOrderId.value)]
      ensures !sent ==> log == old(log) + [Event(CancelPath, id, CancelRejected(None))] && writes == old(writes)
    {
      if venueOrderId.None? {
        log := log + [Event(CancelPath, id, CancelRejected(None))];
        return false;
      }
      writes := writes + [Delete(venueOrderId.value)];
      return true;
    }

    /** Silence says nothing; only a body says canceled or not canceled. */
    method FinishCancelOrder(id: string, venueOrderId: string, t: Answers.Transport)
      modifies `log
      ensures !t.Answered? ==> log == old(log)
      ensures t.Answered? && Answers.Classify(t.body, env.render).Payload? ==>
        log == old(log) + [Event(CancelPath, id, Canceled(venueOrderId))]
      ensures t.Answered? && Answers.Classify(t.body, env.render).Raised? ==>
        log == old(log) + [Event(CancelPath, id, CancelRejected(Some(Answers.Classify(t.body, env.render).error)))]
    {
      hide Answers.Classify;
      Answers.AmbiguityIsSilence(t, env.render);
      var answer := Answers.Write(t, env.render);
      if answer.Raised? && answer.error.Ambiguous? {
        return;
      }
      log := log + [Event(
        CancelPath, id, if answer.Raised? then CancelRejected(Some(answer.error)) else Canceled(venueOrderId))];
    }

    /** The whole of a modify's terms, each given or else the cached order's. */
    function TermsFor(command: Modify, cached: Maybe<Order>): (step: ModifyStep)
    {
      var quantity := Else(if command.quantity == Some(0.0) then None else command.quantity,
                           if cached.Some? then Some(cached.value.quantity) else None);
      var price := Else(NonZero(command.price), if cached.Some? then cached.value.price else None);
      if command.venueOrderId.None? then Incomplete
      else if cached.Some? && price.None? then NoPriceAttribute
      else if !InCache(env, command.instrument) || quantity.None? || price.None? then Incomplete
      else if cached.Some? && (Validity(cached.value.tif).None? || DhanOrderType(cached.value.orderType).None?) then
        Unmapped
      else Sends(quantity.value, price.value)
    }

    /**
     * A cached order without a price attribute to fall back on, an unmapped
     * validity and an unmapped order type are raised outside the `try`: nothing
     * is sent and nothing said.
     */
    method StartModifyOrder(command: Modify, cached: Maybe<Order>) returns (step: ModifyStep)
      modifies `log, `writes
      ensures step == TermsFor(command, cached)
      ensures step.Sends? ==>
        && Some(step.quantity) == (if command.quantity.Some? && command.quantity.value > 0.0 then command.quantity
                                   else if cached.Some? then Some(cached.value.quantity) else None)
        && Some(step.price) == (if command.price.Some? && command.price.value != 0.0 then command.price
                                else if cached.Some? then cached.value.price else None)
      ensures step.Incomplete? ==>
        log == old(log) + [Event(ModifyPath, command.id, ModifyRejected(None))] && writes == old(writes)
      ensures step.NoPriceAttribute? || step.Unmapped? ==> log == old(log) && writes == old(writes)
      ensures step.Sends? ==>
        && log == old(log) && |writes| == |old(writes)| + 1 && writes[..|old(writes)|] == old(writes)
        && var put := writes[|old(writes)|];
           && put.Put? && command.venueOrderId == Some(put.venueOrderId)
           && put.terms.price == step.price
           && put.terms.units == UnitsFor(env.maps.instruments[command.instrument].multiplier, step.quantity)
           && Some(put.terms.validity) == (if cached.Some? then Validity(cached.value.tif) else Some("DAY"))
           && Some(put.terms.orderType) == (if cached.Some? then DhanOrderType(cached.value.orderType) else Some("LIMIT"))
           && put.terms.trigger == (if command.trigger.Some? && command.trigger.value != 0.0 then command.trigger
                                    else if cached.Some? then cached.value.trigger else None)
    {
      hide UnitsFor, Validity, DhanOrderType;
      if command.venueOrderId.None? {
        log := log + [Event(ModifyPath, command.id, ModifyRejected(None))];
        return Incomplete;
      }
      var quantity, price := command.quantity, NonZero(command.price);
      if quantity.None? || quantity.value == 0.0 {
        quantity := if cached.Some? then Some(cached.value.quantity) else None;
      }
      if price.None? && cached.Some? {
        price := cached.value.price;
        if price.None? {
          return NoPriceAttribute;
        }
      }
      if !InCache(env, command.instrument) || quantity.None? || price.None? {
        log := log + [Event(ModifyPath, command.id, ModifyRejected(None))];
        return Incomplete;
      }
      var trigger := NonZero(command.trigger);
      if trigger.None? && cached.Some? {
        trigger := cached.value.trigger;
      }
      var validity := if cached.Some? then Validity(cached.value.tif) else Some("DAY");
      if validity.None? {
        return Unmapped;
      }
      var orderType := if cached.Some? then DhanOrderType(cached.value.orderType) else Some("LIMIT");
      if orderType.None? {
        return Unmapped;
      }
      var units := UnitsFor(env.maps.instruments[command.instrument].multiplier, quantity.value);
      writes := writes + [Put(
        command.venueOrderId.value, Terms(orderType.value, units, price.value, validity.value, trigger))];
      return Sends(quantity.value, price.value);
    }

    /** A modify is updated, refused or unheard of, as its body says, and never guessed. */
    method FinishModifyOrder(id: string, venueOrderId: string, quantity: Quantity, price: real, t: Answers.Transport)
      modifies `log
      ensures !t.Answered? ==> log == old(log)
      ensures t.Answered? && Answers.Classify(t.body, env.render).Payload? ==>
        log == old(log) + [Event(ModifyPath, id, Updated(venueOrderId, quantity, price))]
      ensures t.Answered? && Answers.Classify(t.body, env.render).Raised? ==>
        log == old(log) + [Event(ModifyPath, id, ModifyRejected(Some(Answers.Classify(t.body, env.render).error)))]
    {
      hide Answers.Classify;
      Answers.AmbiguityIsSilence(t, env.render);
      var answer := Answers.Write(t, env.render);
      if answer.Raised? && answer.error.Ambiguous? {
        return;
      }
      log := log + [Event(
        ModifyPath, id,
        if answer.Raised? then ModifyRejected(Some(answer.error)) else Updated(venueOrderId, quantity, price))];
    }
  }

  /** The parts of a built payload that identify, face and size the placement. */
  method RequestIn(endpoint: Endpoint, p: Payload) returns (r: Request)
    requires Under(p, CorrelationKey).Some? && Under(p, CorrelationKey).value.Text?
    requires Under(p, SecurityId).Some? && Under(p, SecurityId).value.Text?
    requires Under(p, ExchangeSegment).Some? && Under(p, ExchangeSegment).value.Text?
    requires Under(p, TransactionType).Some? && Under(p, TransactionType).value.Text?
    requires Under(p, QuantityKey).Some? && Under(p, QuantityKey).value.Count?
    ensures r.endpoint == endpoint
    ensures Some(Text(r.correlationId)) == Under(p, CorrelationKey) && Some(Count(r.units)) == Under(p, QuantityKey)
    ensures Some(Text(r.wire.securityId)) == Under(p, SecurityId)
    ensures Some(Text(r.wire.segment)) == Under(p, ExchangeSegment) && Some(Text(r.side)) == Under(p, TransactionType)
  {
    r := Request(
      endpoint, p[CorrelationKey].s, WireName(p[SecurityId].s, p[ExchangeSegment].s), p[TransactionType].s,
      p[QuantityKey].n);
  }

  lemma OneId(call: Call, order: Order)
    requires !call.OrderList? && call.order == order
    ensures Ids(call) == [order.id]
  {
  }

  lemma OneEvent(id: string, fact: Fact)
    ensures Block(SubmitPath, [id], Repeat(fact, 1)) == [Event(SubmitPath, id, fact)]
  {
  }

  /** A forever order's answer is read as a single order's is. */
  lemma OneCall(env: Env, order: Order, productType: string, second: Maybe<Order>, t: Answers.Transport)
    ensures
      var single, forever := Single(order), Forever(order, productType, second);
      && Ids(single) == Ids(forever) && Closing(env, single, t) == Closing(env, forever, t)
      && (Escaping(env, single, t) <==> Escaping(env, forever, t))
  {
    hide Answers.Write, OrderIdIn, LegVenueOrderId;
  }

  lemma OneOrder(order: Order, fact: Fact)
    ensures Ids(Single(order)) == [order.id]
    ensures Block(SubmitPath, Ids(Single(order)), Repeat(fact, 1)) == [Event(SubmitPath, order.id, fact)]
    ensures Block(SubmitPath, Ids(Single(order)), [fact]) == [Event(SubmitPath, order.id, fact)]
  {
  }
}
