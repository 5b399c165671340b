/**
 * The execution client (`execution.py`). Each coroutine that writes is split at
 * its one `await`: everything up to the start of the request is a step, and
 * everything after the answer is another. Nothing runs between the checks and
 * the request.
 */
module Execution {
  import opened Providers
  import opened Orders
  import opened SuperOrders
  import opened ForeverOrders
  import opened Wrappers
  import Answers

  // ----- what the client says ----------------------------------------------

  /** Which coroutine an event came from. */
  datatype Path = SubmitPath | CancelPath | ModifyPath | StreamPath

  datatype Why = ByAnswer(error: Answers.DhanError) | ByFrame(reason: string)

  datatype Fact =
    | Denied(reason: Refusal)
    | Submitted
    | Rejected(why: Why)
    | Accepted(venueOrderId: string)
    | Canceled(venueOrderId: string)
    | CancelRejected(answer: Maybe<Answers.DhanError>)
    | Updated(venueOrderId: string, quantity: Quantity, price: real)
    | ModifyRejected(answer: Maybe<Answers.DhanError>)
    | Expired(venueOrderId: string)
    | Filled(fill: FillReport)

  datatype Event = Event(path: Path, id: string, fact: Fact)

  /** The k-th fact is about the k-th order; later orders hear nothing. */
  function Block(path: Path, ids: seq<string>, facts: seq<Fact>): seq<Event>
    requires |facts| <= |ids|
  {
    seq(|facts|, k requires 0 <= k < |facts| => Event(path, ids[k], facts[k]))
  }

  function Repeat(fact: Fact, n: nat): (facts: seq<Fact>)
    ensures |facts| == n && forall k :: 0 <= k < n ==> facts[k] == fact
  {
    seq(n, k => fact)
  }

  // ----- what the client sends ---------------------------------------------

  datatype Endpoint = OrdersPath | SuperOrdersPath | ForeverOrdersPath

  /** The parts of a placement that identify it, face it and size it. */
  datatype Request = Request(endpoint: Endpoint, correlationId: string, wire: WireName, side: string, units: nat)

  /** A POST, and the orders it was sent for. */
  datatype Post = Post(ids: seq<string>, request: Request)

  /** A modify replaces an order's terms. */
  datatype Terms = Terms(orderType: string, units: nat, price: real, validity: string, trigger: Maybe<real>)

  /** The other two writes: DELETE and PUT on /v2/orders/{order-id}. */
  datatype Write = Delete(venueOrderId: string) | Put(venueOrderId: string, terms: Terms)

  /** One placement command: an order, an order list, or an order to rest past the close. */
  datatype Call =
    | Single(order: Order)
    | OrderList(orders: seq<Order>, isBracket: bool)
    | Forever(order: Order, productType: string, second: Maybe<Order>)

  /** An order list is never empty. */
  predicate WellFormed(call: Call)
  {
    call.OrderList? ==> call.orders != []
  }

  function OrdersOf(call: Call): (orders: seq<Order>)
    ensures WellFormed(call) ==> orders != []
  {
    if call.OrderList? then call.orders else [call.order]
  }

  function IdsOf(orders: seq<Order>): (ids: seq<string>)
    ensures |ids| == |orders|
  {
    seq(|orders|, k requires 0 <= k < |orders| => orders[k].id)
  }

  function Ids(call: Call): (ids: seq<string>)
    ensures |ids| == |OrdersOf(call)|
  {
    IdsOf(OrdersOf(call))
  }

  // ----- before any I/O ----------------------------------------------------

  /**
   * The surroundings a run keeps: the two switches, the digest, Python's
   * `str()`, the provider's maps, whose instruments the cache also holds, and
   * the placement settings.
   */
  datatype Env = Env(
    liveOrders: bool, variable: Maybe<string>, digest: Digest, render: Answers.Renderer, maps: Maps, settings: Settings)

  const LIVE_ORDERS_VALUE: string := "1"

  /** Both switches are needed; the variable is compared exactly. */
  predicate MaySubmit(env: Env)
  {
    env.liveOrders && env.variable == Some(LIVE_ORDERS_VALUE)
  }

  predicate InCache(env: Env, id: InstrumentId)
  {
    id in env.maps.instruments
  }

  function AsCheck(refusal: Maybe<Refusal>): Check
  {
    if refusal.Some? then Refuses(refusal.value) else Passes
  }

  /** `_refusal_for`. */
  function OrderVerdict(env: Env, degraded: bool, order: Order): Check
  {
    if !MaySubmit(env) then Refuses(SubmissionDisabled)
    else if degraded then Refuses(Degraded)
    else if !InCache(env, order.instrument) then Refuses(NotInCache)
    else if order.instrument !in env.maps.securityIds then Refuses(UnknownInstrument)
    else AsCheck(PlaceRefusal(order, env.maps.instruments[order.instrument], env.settings))
  }

  /** `_super_order_refusal`. Too short a list is an IndexError, which is caught as a LookupError. */
  function ListVerdict(env: Env, degraded: bool, orders: seq<Order>, isBracket: bool): Check
    requires orders != []
  {
    var instrument := orders[0].instrument;
    if !MaySubmit(env) then Refuses(SubmissionDisabled)
    else if degraded then Refuses(Degraded)
    else if !isBracket then Refuses(NotABracket)
    else if !InCache(env, instrument) then Refuses(NotInCache)
    else if instrument !in env.maps.securityIds then Refuses(UnknownInstrument)
    else if |orders| < 3 then Refuses(TooFewLegs)
    else SuperCheck(orders[0], orders[1], orders[2], env.maps.instruments[instrument], env.settings.productType)
  }

  /** The checks at the head of `submit_forever_order`. */
  function ForeverVerdict(env: Env, degraded: bool, order: Order, productType: string, second: Maybe<Order>): Check
  {
    if !MaySubmit(env) then Refuses(SubmissionDisabled)
    else if !InCache(env, order.instrument) then Refuses(NotInCache)
    else if degraded then Refuses(Degraded)
    else if order.instrument !in env.maps.securityIds then Refuses(UnknownInstrument)
    else ForeverCheck(order, env.maps.instruments[order.instrument], productType, second)
  }

  function Verdict(env: Env, degraded: bool, call: Call): Check
    requires WellFormed(call)
  {
    match call
    case Single(order) => OrderVerdict(env, degraded, order)
    case OrderList(orders, isBracket) => ListVerdict(env, degraded, orders, isBracket)
    case Forever(order, productType, second) => ForeverVerdict(env, degraded, order, productType, second)
  }

  /** A call that passes names an instrument with a wire name, and a degraded client passes none. */
  lemma PassingCallsAreRoutable(env: Env, degraded: bool, call: Call)
    requires WellFormed(call) && Verdict(env, degraded, call).Passes?
    ensures !degraded && MaySubmit(env)
    ensures
      var id := OrdersOf(call)[0].instrument;
      InCache(env, id) && NameOnWire(env.maps, id).Some?
    ensures call.OrderList? ==> |call.orders| >= 3
  {
    hide DhanOrderType, Validity, SideName, SegmentName;
  }

  function EndpointOf(call: Call): Endpoint
  {
    match call
    case Single(_) => OrdersPath
    case OrderList(_, _) => SuperOrdersPath
    case Forever(_, _, _) => ForeverOrdersPath
  }

  predicate Routable(env: Env, call: Call)
  {
    WellFormed(call) && InCache(env, OrdersOf(call)[0].instrument)
    && NameOnWire(env.maps, OrdersOf(call)[0].instrument).Some?
  }

  /** Which way a placement goes: an ordinary one sends the side it is given, the others anything but a buy as a sale. */
  function SideWord(call: Call): string
    requires WellFormed(call)
  {
    var side := OrdersOf(call)[0].side;
    if call.Single? && SideName(side).Some? then SideName(side).value else if side.BUY? then "BUY" else "SELL"
  }

  /** What identifies the placement a call makes. One quantity, the entry's, covers a bracket. */
  function RequestOf(env: Env, call: Call): Request
    requires Routable(env, call)
  {
    var lead := OrdersOf(call)[0];
    Request(
      EndpointOf(call), CorrelationId(env.digest, lead.id), NameOnWire(env.maps, lead.instrument).value, SideWord(call),
      UnitsFor(env.maps.instruments[lead.instrument].multiplier, lead.quantity))
  }

  // ----- after the answer --------------------------------------------------

  /** `str(body["orderId"])`; None is a KeyError, or a TypeError on an array. */
  function OrderIdIn(body: Answers.Json, render: Answers.Renderer): Maybe<string>
  {
    if Answers.Has(body, "orderId") then Some(Answers.Str(Answers.Get(body, "orderId"), render)) else None
  }

  const LEGS: seq<Leg> := [ENTRY_LEG, TARGET_LEG, STOP_LOSS_LEG]

  /** The venue id each order of a call is accepted under: legs run out after three. */
  function Acceptances(call: Call, orderId: string): (facts: seq<Fact>)
    ensures |facts| <= |OrdersOf(call)|
    ensures forall k :: 0 <= k < |facts| ==> k < 3 && facts[k] == Accepted(LegVenueOrderId(orderId, LEGS[k]))
  {
    var n := if |OrdersOf(call)| < 3 then |OrdersOf(call)| else 3;
    seq(n, k requires 0 <= k < n => Accepted(LegVenueOrderId(orderId, LEGS[k])))
  }

  /** What a placement's answer makes the client say about each of its orders. */
  function Closing(env: Env, call: Call, t: Answers.Transport): (facts: seq<Fact>)
    ensures |facts| <= |OrdersOf(call)|
  {
    match Answers.Write(t, env.render)
    case Raised(error) =>
      if error.Ambiguous? then [] else Repeat(Rejected(ByAnswer(error)), |OrdersOf(call)|)
    case Payload(body) =>
      match OrderIdIn(body, env.render)
      case None => []
      case Some(orderId) => Acceptances(call, orderId)
  }

  /** The address refusal, which is the client's and not the order's. */
  predicate Degrades(env: Env, t: Answers.Transport)
  {
    var a := Answers.Write(t, env.render);
    a.Raised? && a.error.IPNotWhitelisted?
  }

  /** An acknowledgement without an orderId, or of more orders than there are legs, raises out of the client. */
  predicate Escaping(env: Env, call: Call, t: Answers.Transport)
  {
    var a := Answers.Write(t, env.render);
    a.Payload? && (OrderIdIn(a.body, env.render).None? || (call.OrderList? && |call.orders| != |LEGS|))
  }

  // ----- the client --------------------------------------------------------

  /** The client's own state. */
  datatype Client = Client(degraded: bool, log: seq<Event>, posts: seq<Post>)

  /** What starting a call does: everything up to its `await`. */
  function Started(env: Env, c: Client, call: Call): Client
    requires WellFormed(call)
  {
    match Verdict(env, c.degraded, call)
    case Refuses(reason) =>
      c.(log := c.log + Block(SubmitPath, Ids(call), Repeat(Denied(reason), |Ids(call)|)))
    case Escapes => c
    case Passes =>
      PassingCallsAreRoutable(env, c.degraded, call);
      c.(log := c.log + Block(SubmitPath, Ids(call), Repeat(Submitted, |Ids(call)|)),
         posts := c.posts + [Post(Ids(call), RequestOf(env, call))])
  }

  /** What the answer to a call does: everything after its `await`. */
  function Finished(env: Env, c: Client, call: Call, t: Answers.Transport): Client
  {
    c.(degraded := c.degraded || Degrades(env, t), log := c.log + Block(SubmitPath, Ids(call), Closing(env, call, t)))
  }
}
