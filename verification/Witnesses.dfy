/** Concrete inputs at which a promise made of the code, by its words or by its shape, is not kept. */
module Witnesses {
  import opened Symbology
  import opened Providers
  import opened Orders
  import opened SuperOrders
  import opened Execution
  import opened Protocol
  import opened Evidence
  import opened Reconciliation
  import Fees
  import ForeverOrders
  import Lookup
  import Subscription
  import opened Stream
  import opened Wrappers
  import Answers

  // ----- one instrument ----------------------------------------------------

  const SHARE_ID: InstrumentId := InstrumentId("RELIANCE", NSE)
  const SHARE: Instrument := Instrument(SHARE_ID, 5, 1, "2885", 2)
  const SHARE_MAPS: Maps := Maps(map[SHARE_ID := SHARE], map[SHARE_ID := "2885"], map[("2885", 1) := SHARE_ID])
  const SHARE_WIRE: WireName := WireName("2885", "NSE_EQ")

  function Surroundings(): Env
  {
    Env(true, Some("1"), id => "0123456789abcdef01", j => "", SHARE_MAPS,
        Settings("1000000001", "CNC", false, ""))
  }

  function Leg(id: string, side: Side, price: real): Order
  {
    Order(id, SHARE_ID, side, LIMIT, DAY, 1.0, Some(price), None, None)
  }

  // ----- a bracket of four orders ------------------------------------------

  const FOUR: seq<Order> := [Leg("A", BUY, 100.0), Leg("B", SELL, 110.0), Leg("C", SELL, 90.0), Leg("D", SELL, 80.0)]
  const ACKNOWLEDGED: Answers.Json := Answers.Object([("orderId", Answers.Text("7"))])

  lemma FourArePassed()
    ensures Verdict(Surroundings(), false, OrderList(FOUR, true)).Passes?
    ensures Distinct(Ids(OrderList(FOUR, true)))
    ensures Routable(Surroundings(), OrderList(FOUR, true))
  {
    assert Ids(OrderList(FOUR, true)) == ["A", "B", "C", "D"];
  }

  lemma SevenIsAcknowledged(env: Env)
    ensures Acknowledges(env, ACKNOWLEDGED, "7")
  {
    var fields := ACKNOWLEDGED.fields;
    assert fields[0].0 == "orderId" && fields[..0] == [];
    assert Answers.Get(Answers.Object([]), "status") == Answers.Null;
    assert Answers.Get(ACKNOWLEDGED, "status") == Answers.Null;
  }

  function FourLegRun(): Run
  {
    Then(Then(Then(Nil, Begin(OrderList(FOUR, true))), Decide(0, ACKNOWLEDGED, None)),
         Deliver(0, Answers.Answered(ACKNOWLEDGED)))
  }

  lemma FourLegRunEnds()
    ensures
      var s := After(Surroundings(), FourLegRun());
      s.calls == [Record(OrderList(FOUR, true), Settled(Answers.Answered(ACKNOWLEDGED)))]
      && AnsweredWith(s, 0, ACKNOWLEDGED)
  {
    hide Verdict, Routable, Started, Finished, Distinct, Ids, Surroundings, RequestOf;
    FourArePassed();
    var env, call := Surroundings(), OrderList(FOUR, true);
    assert Enabled(env, INITIAL, Begin(call));
  }

  /** Four orders, acknowledged: the first three are accepted and the fourth is left submitted. */
  lemma FourLegsPartWays()
    ensures !SharesOneFate(After(Surroundings(), FourLegRun()), 0)
  {
    hide After, AnsweredWith, Acknowledges, SharesOneFate, Surroundings;
    FourLegRunEnds();
    SevenIsAcknowledged(Surroundings());
    BracketsShareOneFate(Surroundings(), FourLegRun(), 0);
  }

  // ----- a bracket whose details name its entry ----------------------------

  /** A working super order of one lot. */
  function Working(correlationId: string, legs: seq<Maybe<LegRow>>): SuperRow
  {
    SuperRow(Some("7"), correlationId, SHARE_WIRE, "BUY", "LIMIT", "PENDING", Some(5), Some(0), Some("100.0"), Some(""),
             "", Some(0), Some(0), legs)
  }

  const AGAIN: LegRow := LegRow("ENTRY_LEG", "BUY", "PENDING", Some(5), Some(0), Some(0), Some("100.0"))

  const TWICE: seq<Maybe<SuperRow>> := [Some(Working("", [Some(AGAIN)]))]

  /** The entry is reported twice, under one id. */
  lemma EntriesAreReportedTwice()
    ensures
      var r := Reports(SHARE_MAPS, TWICE);
      r.Ok? && |r.value| == 2 && r.value[0].venueOrderId == r.value[1].venueOrderId == "7"
  {
    hide Chain;
    var row, leg := Working("", [Some(AGAIN)]), AGAIN;
    var entry, again := EntryReport(row, SHARE), OneLegReport(row, SHARE, leg, ENTRY_LEG);
    assert entry.Ok? && again.Ok?;
    assert InstrumentFor(SHARE_MAPS, SHARE_WIRE) == Some(SHARE);
    assert LegReports(row, SHARE, row.legs[1..]) == Ok([]);
    ChainChains([again.value], [], Ok([]));
    assert LegReports(row, SHARE, row.legs) == Ok([again.value]);
    ChainChains([], [entry.value], Ok([again.value]));
    assert RowReports(SHARE_MAPS, TWICE[0]) == Chain([entry.value], Ok([again.value]));
    ChainsTo([entry.value], [again.value]);
    assert Reports(SHARE_MAPS, TWICE[1..]) == Ok([]);
    ChainChains([entry.value] + [again.value], [], Ok([]));
  }

  lemma ChainsTo<T>(found: seq<T>, more: seq<T>)
    ensures Chain(found, Ok(more)) == Ok(found + more)
  {
  }

  // ----- an id of the engine's own length, two past the limit --------------

  const LONG_ID: string := "O-20260908-091500-001-000-1"

  /** The super order book gives the caller's entry back under an id the caller never chose. */
  lemma LongIdsComeBackChanged()
    ensures
      var digest := Surroundings().digest;
      var row := Working(CorrelationId(digest, LONG_ID), []);
      var r := EntryReport(row, SHARE);
      r.Ok? && r.value.clientOrderId == Some("0123456789abcdef01") && r.value.clientOrderId != Some(LONG_ID)
  {
    hide InstrumentFor;
    assert |LONG_ID| > CORRELATION_ID_MAX_LEN;
    assert CorrelationId(Surroundings().digest, LONG_ID) == "0123456789abcdef01";
    assert "0123456789abcdef01"[0] != LONG_ID[0];
  }

  function LongOrder(): Order
  {
    Leg(LONG_ID, BUY, 100.0)
  }

  /** The venue's row of that order, which carries the digest. */
  const LONG_ROW: OrderRow := OrderRow(
    Some("7"), "0123456789abcdef01", SHARE_WIRE, "BUY", "LIMIT", "DAY", "PENDING", Some(5), Some(0), Some("100.0"),
    Some(""), Some(""), "", Some(0), Some(0))

  function LostReply(): Run
  {
    Placed(LongOrder(), ACKNOWLEDGED, LONG_ROW, Answers.Lost)
  }

  lemma LostReplyEnds()
    ensures
      var s := After(Surroundings(), LostReply());
      s.calls == [Record(Single(LongOrder()), Settled(Answers.Lost))] && s.venue.held == map[0 := "7"]
      && s.venue.book == [Entry(Some(0), LONG_ROW)]
    ensures !SentAsItself(LONG_ID)
    ensures Surroundings().digest(LONG_ID) == CorrelationId(Surroundings().digest, LONG_ID) == "0123456789abcdef01"
  {
    hide After;
    var env := Surroundings();
    assert |LONG_ID| > CORRELATION_ID_MAX_LEN;
    assert CorrelationId(env.digest, LONG_ID) == "0123456789abcdef01";
    assert OrderVerdict(env, false, LongOrder()).Passes?;
    assert Echoes(LONG_ROW, RequestOf(env, Single(LongOrder())));
    PlacedRun(env, LongOrder(), ACKNOWLEDGED, LONG_ROW, Answers.Lost);
  }

  /**
   * The case the lookup is there for, and it fails: the reply is lost, the
   * venue holds the order, and asked for it by its client id through a venue
   * that answers from its own book, the client is told there is none.
   */
  lemma LongIdsAreNotFound()
    ensures
      var s := After(Surroundings(), LostReply());
      var answers := (path: Lookup.Path) => Rows(Lookup.Selected(s.venue.book, path));
      0 in s.venue.held
      && Lookup.AnswerTo(Surroundings(), Some(LONG_ID), answers(Lookup.ByCorrelation(LONG_ID)), []) == Lookup.NoOrder
  {
    hide After, Surroundings, Lookup.AnswerTo, Lookup.Selected;
    LostReplyEnds();
    assert "0123456789abcdef01"[0] != LONG_ID[0];
    var s := After(Surroundings(), LostReply());
    var path := Lookup.ByCorrelation(LONG_ID);
    Lookup.SelectedNone(s.venue.book, path);
    Lookup.NoRowIsNoOrder(Surroundings(), Some(LONG_ID), []);
  }

  // ----- a stop read back --------------------------------------------------

  /** A stop-limit order good till cancelled, its own words echoed, is reported as a plain day limit. */
  lemma StopsComeBackAsLimits()
    ensures
      var env := Surroundings();
      var order := Order("A", SHARE_ID, BUY, STOP_LIMIT, GTC, 1.0, Some(100.0), Some(99.0), None);
      var row := LONG_ROW.(correlationId := "A", orderType := "STOP_LOSS", validity := "DAY");
      var r := OrderStatusReport(env.digest, row, SHARE, ["A"]);
      && OrderVerdict(env, false, order).Passes?
      && DhanOrderType(order.orderType) == Some(row.orderType) && Validity(order.tif) == Some(row.validity)
      && r.Ok? && r.value.orderType == LIMIT && r.value.tif == DAY
  {
    hide ClientOrderIdFor;
  }

  // ----- an order without a price ------------------------------------------

  /** A stop-market order, resting: it passes every check and its price goes out as an empty string. */
  lemma EmptyPricesRest()
    ensures
      var env := Surroundings();
      var order := Order("A", SHARE_ID, BUY, STOP_MARKET, DAY, 1.0, None, Some(100.0), None);
      && ForeverVerdict(env, false, order, "CNC", None).Passes?
      && ForeverOrders.ForeverSays(env.digest, order, None, SHARE, "2885", "1000000001", "CNC", PriceKey)
         == Some(Text(""))
  {
  }

  /** And so does a market entry's in a bracket. */
  lemma EmptyPricesAreBracketed()
    ensures
      var env := Surroundings();
      var entry := Order("A", SHARE_ID, BUY, MARKET, DAY, 1.0, None, None, None);
      var orders := [entry, Leg("B", SELL, 110.0), Leg("C", SELL, 90.0)];
      && ListVerdict(env, false, orders, true).Passes?
      && SuperSays(env.digest, entry, orders[1], orders[2], SHARE, "2885", env.settings, PriceKey) == Some(Text(""))
  {
  }

  // ----- an order filled twice ---------------------------------------------

  const RATES: Fees.Rates := Fees.Rates(0.0, 0.0, 0.0, 0.0, 0.18, 20.0)
  const PERIOD: Fees.Period := Fees.Period(Date(2024, 10, 1), Date(2030, 12, 31), RATES)
  const FILL: Fees.Fill := Fees.Fill(Date(2026, 9, 4), 1, 100.0)

  /** Two fills of one lot each, at today's brokerage and its tax: Rs 3.60 more than one fill of both. */
  lemma TwoFillsCostMore()
    ensures
      var fills := [FILL, FILL];
      Fees.Commissions([PERIOD], BUY, 65, fills) == Some(Fees.WholeCost(RATES, BUY, Fees.Turnover(fills, 65)) + 3.6)
  {
    hide Fees.Commissions, Fees.WholeCost, Fees.Turnover;
    var fills := [FILL, FILL];
    assert Fees.RatesOn([PERIOD], FILL.on) == Some(RATES);
    Fees.SplitOrdersCost([PERIOD], BUY, 65, fills, RATES);
    assert Fees.BrokerageTax(RATES) == 3.6;
    assert Fees.Surcharge(RATES, 1) == 3.6;
  }

  // ----- smaller ones ------------------------------------------------------

  /** Half a contract of a lot of 65 goes out as 32 units, which are no whole lots when they come back. */
  lemma HalfLotsDoNotComeBack()
    ensures UnitsFor(65, 0.5) == 32 && LotsFor(65, 32) == Err(NotWholeLots)
  {
  }

  /** With colons in order ids, one order's entry and another's target can share an id. */
  lemma ColonsCollide()
    ensures LegVenueOrderId("7", TARGET_LEG) == LegVenueOrderId("7:TARGET_LEG", ENTRY_LEG)
  {
  }

  /** An index prints as its bare name, and a bare name reads as an equity. */
  lemma IndicesReadAsEquities()
    ensures
      var index := ContractKey("NIFTY", INDEX, None, None, None);
      ToSymbol(index) == Ok("NIFTY") && ParseSymbol("NIFTY") == Ok(ContractKey("NIFTY", EQUITY, None, None, None))
  {
    assert Upper("NIFTY") == "NIFTY";
    assert Last("NIFTY", 2) == "TY" && Last("NIFTY", 3) == "FTY";
  }

  /** An id that ends in a zero byte is heard without it. */
  lemma TrailingZerosAreLost()
    ensures
      var wanted := [Subscription.Wanted(2, [49, 0])];
      var chunks := Subscription.Chunks(wanted, Subscription.SUBSCRIBE_GROUP_SIZE);
      (Subscription.ChunksTile(wanted, Subscription.SUBSCRIBE_GROUP_SIZE);
       Subscription.Heard(Subscription.Packets(21, [], chunks)) != wanted)
  {
    hide Subscription.Packets, Subscription.Heard, Subscription.Chunks;
    var wanted := [Subscription.Wanted(2, [49, 0])];
    Subscription.ChunksTile(wanted, Subscription.SUBSCRIBE_GROUP_SIZE);
    Subscription.SubscriptionsReadBack(21, [], wanted);
    assert Subscription.EndsInZero(wanted[0].id);
  }

  // ----- a day written with a space ----------------------------------------

  /** A symbol that reads as a contract and prints as another symbol. */
  lemma SpacedDaysPrintOtherwise()
    ensures
      var s := "NIFTY2405 5FUT";
      ParseSymbol(s).Ok? && ToSymbol(ParseSymbol(s).value) == Ok("NIFTY240505FUT")
  {
    hide TryDate, Stamp, Upper, AsOption, AsFuture;
    var u, stamp := "NIFTY", "2405 5";
    assert u + stamp + "FUT" == "NIFTY2405 5FUT";
    FutureShape(u, stamp);
    SpacedDay();
    assert u + "240505" + "FUT" == "NIFTY240505FUT";
  }

  lemma SpacedDay()
    ensures TryDate("2405 5") == Some(Date(2024, 5, 5)) && Stamp(Date(2024, 5, 5)) == "240505"
    ensures Upper("NIFTY") == "NIFTY"
  {
    assert TwoChars(24) == "24" && TwoChars(5) == "05";
    assert "24" + "05" + "05" == "240505";
  }

  // ----- frames that raise -------------------------------------------------

  /** An alert of which everything converts but what is said not to. */
  function Alert(
    orderNo: Conversion<string>, status: string, correlationId: string, quantity: Conversion<int>,
    average: Conversion<Maybe<real>>, price: Conversion<Maybe<real>>): (f: Frame)
  {
    OrderAlert(orderNo, status, correlationId, "", quantity, Converts(5), Converts(0), average, price,
               Converts(0), Converts(None))
  }

  /** An alert without its number raises, whoever's it is. */
  lemma NumberlessAlertsRaise(env: Env, cache: Cache, answers: string -> Trades)
    ensures HandlerRaises(
      env, Input(cache, Alert(FailsOtherwise, "PENDING", "", Converts(5), Converts(None), Converts(None)), answers))
  {
  }

  /** So does a price that is no decimal, for that failure is no ValueError. */
  lemma BadPricesRaise(env: Env, cache: Cache, answers: string -> Trades)
    ensures HandlerRaises(
      env, Input(cache, Alert(Converts("7"), "PENDING", "", Converts(5), FailsOtherwise, Converts(None)), answers))
    ensures HandlerRaises(
      env, Input(cache, Alert(Converts("7"), "PENDING", "", Converts(5), Converts(None), FailsOtherwise), answers))
  {
    assert Upper("PENDING") == "PENDING";
  }

  /** A count that is no number is caught, even before such a price. */
  lemma BadCountsAreCaught(env: Env, cache: Cache, answers: string -> Trades)
    ensures !HandlerRaises(
      env, Input(cache, Alert(Converts("7"), "PENDING", "", FailsAsValueError, Converts(None), FailsOtherwise), answers))
  {
  }

  /** And an empty number is caught, where a missing one is not. */
  lemma EmptyNumbersAreCaught(env: Env, cache: Cache, answers: string -> Trades)
    ensures !HandlerRaises(
      env,
      Input(cache, Alert(FailsAsValueError, "TRADED", "", Converts(5), Converts(None), FailsOtherwise), answers))
  {
  }

  function OurTrade(row: Maybe<TradeRow>): Input
  {
    Input(Cache(["A"], map["A" := Leg("A", BUY, 100.0)]),
          Alert(Converts("7"), "TRADED", "A", Converts(5), Converts(None), Converts(None)),
          orderNo => TradeRows([row]))
  }

  const TRADE: TradeRow := TradeRow(Some("7"), Some("T1"), SHARE_WIRE, "BUY", Some(5), Some("100.00"), Some(0))

  lemma OurTradeIsAsked(row: Maybe<TradeRow>)
    ensures HandlerRaises(Surroundings(), OurTrade(row)) <==> StopsTheRead(Surroundings(), row)
  {
    hide StopsTheRead, HandlerRaises, ClientOrderIdFor;
    var env, input := Surroundings(), OurTrade(row);
    assert Upper("TRADED") == "TRADED";
    FindsA();
    assert IsTradeAlert(env, input.cache, input.frame);
    WhenHandlerRaises(env, input);
    WhenFaultIsUncaught(input.frame);
    assert input.answers("7").rows[0] == row;
  }

  lemma FindsA()
    ensures ClientOrderIdFor(Surroundings().digest, "A", ["A"]) == Some("A")
  {
    assert SentAsItself("A");
  }

  lemma OurTradeStops(row: TradeRow)
    requires row.wire == SHARE_WIRE
    ensures StopsTheRead(Surroundings(), Some(row)) <==> IsBadTrade(row, SHARE)
  {
    hide IsBadTrade;
  }

  /** A row of our instrument raises as it is bad. */
  lemma BadTradesRaise(row: Maybe<TradeRow>)
    requires row.Some? ==> row.value.wire == SHARE_WIRE
    ensures HandlerRaises(Surroundings(), OurTrade(row)) <==> row.None? || IsBadTrade(row.value, SHARE)
  {
    hide HandlerRaises, OurTrade, IsBadTrade, StopsTheRead, Surroundings;
    OurTradeIsAsked(row);
    if row.Some? {
      OurTradeStops(row.value);
    } else {
      NoObjectStops(Surroundings());
    }
  }

  lemma NoObjectStops(env: Env)
    ensures StopsTheRead(env, None)
  {
  }

  /**
   * A trade of ours that reads well does not raise. Without its trade id, its
   * order id, a price or a time, without a count or with one that is not whole
   * lots, or as no object at all, it does.
   */
  lemma EachBadTradeRaises()
    ensures !HandlerRaises(Surroundings(), OurTrade(Some(TRADE)))
    ensures HandlerRaises(Surroundings(), OurTrade(Some(TRADE.(tradeId := None))))
    ensures HandlerRaises(Surroundings(), OurTrade(Some(TRADE.(orderId := None))))
    ensures HandlerRaises(Surroundings(), OurTrade(Some(TRADE.(price := None))))
    ensures HandlerRaises(Surroundings(), OurTrade(Some(TRADE.(stamp := None))))
    ensures HandlerRaises(Surroundings(), OurTrade(Some(TRADE.(units := None))))
    ensures HandlerRaises(Surroundings(), OurTrade(Some(TRADE.(units := Some(3)))))
    ensures HandlerRaises(Surroundings(), OurTrade(None))
  {
    hide HandlerRaises, OurTrade, StopsTheRead, Surroundings;
    BadTradesRaise(Some(TRADE));
    BadTradesRaise(Some(TRADE.(tradeId := None)));
    BadTradesRaise(Some(TRADE.(orderId := None)));
    BadTradesRaise(Some(TRADE.(price := None)));
    BadTradesRaise(Some(TRADE.(stamp := None)));
    BadTradesRaise(Some(TRADE.(units := None)));
    BadTradesRaise(Some(TRADE.(units := Some(3))));
    BadTradesRaise(None);
  }
}
