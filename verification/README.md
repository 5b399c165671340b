# The Dhan adapter, modelled and proved

This project models the parts of the Nautilus adapter for the Dhan broker where a
mistake costs money and a test cannot settle the question, and proves what the
adapter's own documentation promises of them.

**The order path.** A placement is a request that may be lost, whose reply may be
lost or unreadable, and which the venue may act on early, late or never. The
client (`ExecutionClient`) is a class whose coroutines are split at their one
`await`; `Protocol` runs any number of such calls at once, with the venue, the
transport, other people's orders and the client's other coroutines interleaved
in any order. `Refinement` shows that the class, driven through any such run, ends
as the run's own client does, so what is proved of every run is proved of the
object. `Evidence` proves what each event is evidence of in every run,
`Reconciliation` and `Brackets` prove that orders the client never heard about
come back from the order book and the super order book, `Lookup` says when asking
for one order finds it, and `Stream` proves that fills announced by the update
stream are the venue's own trades.

**The binary feed.** `Framing`, `MarketFeed`, `FeedDecoder` and `FeedTheorems`
model the counting decoder and prove it inverts an encoder for any sequence of
packets, and the converse. `DepthFeed` does the same for the 20-level socket and
`Float32` gives the exact range in which a price survives a binary32
(IEEE 754-2008, sections 3.3 and 4.3.1).

**Identity.** `Symbology` is the contract symbol printer and parser, `Providers`
the two instrument maps and the trip of an instrument over the wire, `Orders` the
correlation ids, units and payloads, `SuperOrders` and `ForeverOrders` the two
endpoints beside it, with the composite leg ids.

`Witnesses` holds the inputs at which a promise fails.

**Two smaller cores.** `Subscription` is the subscription packet, `Fees` the cost
of an order however it is split into fills.

Where the code and its own words disagree, the model follows the code:

- The stream handler says it never raises (`execution.py:937`). It does: on an
  alert without `OrderNo` (an empty one is caught), on one with a price that is no
  decimal, whose failure is no ValueError (`order_updates.py:141-146`), and on a
  trade row that is no object or lacks an id, a whole count, a price or a time. The
  exact condition is
  `Stream.WhenHandlerRaises`, the inputs are `Witnesses.NumberlessAlertsRaise`,
  `Witnesses.BadPricesRaise` and `Witnesses.EachBadTradeRaises`.
- A write answered with a JSON scalar is reported rejected although a transport
  error says nothing about the order; the exact condition is
  `Evidence.RejectedYetHeld`, the input `Evidence.ScalarAnswersMislead`.
- The super order book casts the correlation id it is echoed instead of
  recomputing it (`super_orders.py:251-255`), so the entry gives the caller's id
  back exactly when that id was sent as itself: `SuperOrders.EntryIdsAreCast`.
  An id of the engine's own length is not: `Witnesses.LongIdsComeBackChanged`.
- The single-order lookup by client id sends the raw id where placement sent the
  derived one, so for such an id it answers that there is no order while the
  venue holds it: `Lookup.ClientIdFindsTheOrder`, with a lost reply in
  `Witnesses.LongIdsAreNotFound`.
- `reports_from` reports the entry of a super order twice, under one id, if
  `legDetails` names it: `SuperOrders.ReportIdsAreDistinct`, and
  `Witnesses.EntriesAreReportedTwice`.
- A bracket of four orders, acknowledged, leaves the fourth submitted when the
  strict `zip` raises: `Evidence.BracketsShareOneFate`, and
  `Witnesses.FourLegsPartWays`.
- NSE and BSE indices share feed code 0, so one can answer for the other:
  `Providers.SharedIndexSegmentCollides`.
- Flat brokerage is charged once an order, its GST once a fill:
  `Fees.SplitOrdersCost`, `Fees.WhenSplittingIsFree`, and
  `Witnesses.TwoFillsCostMore`.
- The report of an order says this adapter sends limit orders only
  (`orders.py:503-504`), and it sends four types. A stop comes back as a limit:
  `Orders.EchoedTermsComeBack`, and `Witnesses.StopsComeBackAsLimits`.
- The date reader takes a space-padded day: `Symbology.PrintInvertsParse`, and
  `Witnesses.SpacedDaysPrintOtherwise`.
- Where an endpoint requires a price, one that does not apply is sent as an empty
  string although `forever_orders.py:141` says nothing ever is. Exactly then:
  `ForeverOrders.WhenForeverOrdersSendEmpty` and
  `SuperOrders.WhenSuperOrdersSendEmpty`, with `Witnesses.EmptyPricesRest` and
  `Witnesses.EmptyPricesAreBracketed`. The ordinary endpoint keeps the promise:
  `Orders.NothingIsSentEmpty`.

What the two sides of a round trip share is pinned apart from both: packets by
byte offsets (`MarketFeed.TickerBytes` and its neighbours, `DepthFeed.DepthBytes`,
`Subscription.PacketBytes`), and Dhan's words and codes in literals
(`Orders.WhatOrdersSay`, `Orders.StatusesAreWorded`, `Providers.RoutesAreThese`,
`Answers.WhichObjectsFail`).

Every hypothesis about the venue or the engine is a named predicate:
`Evidence.FailuresAreDead`, `Evidence.AnswersAreContainers`,
`Evidence.AcknowledgementsAreTrue`, `Orders.Distinguishes` (the hash keeps the
session's ids apart), `Providers.Unambiguous`, `Reconciliation.Cached`,
`Lookup.AnsweredFrom`, `Lookup.Alone`, `SuperOrders.OrdersDiffer`,
`SuperOrders.ColonFree`, `SuperOrders.Tidy` and `Stream.Growing`. A client order id
is submitted once, and order ids are issued once, so that `OrdersDiffer` holds of
the venue's own book; these are the guards of `Protocol.Enabled`.

## Model

| member | source | states |
|---|---|---|
| Evidence.EvidenceRule | nautilus_india/dhan/execution.py:3-13 | In every run: a denied order was never sent; rejected if and only if the venue's delivered answer was that refusal; accepted if and only if it was an acknowledgement, under the id it is made of; an unanswered write leaves exactly Submitted; one request at most, and one exactly for what was called Submitted |
| Evidence.AcceptedAsAcknowledged | nautilus_india/dhan/execution.py:295-301 | In every run, an answer that names an order id among other fields and reports no failure leaves the order accepted under that very id; a bracket's target and stop under it with `:TARGET_LEG` and `:STOP_LOSS_LEG` |
| Evidence.DeniedForGood | nautilus_india/dhan/execution.py:15-17 | After a denial nothing is sent for the order and nothing more is said of it, in every continuation |
| Evidence.RejectedMeansDead | nautilus_india/dhan/execution.py:283-293 | With a venue that answers placements in objects or arrays and whose failure bodies are honest, a rejected order is not held, then or later |
| Evidence.RejectedYetHeld | nautilus_india/dhan/errors.py:144-147 | The exact failure of that rule: a held order is called rejected if and only if its answer was neither an object nor an array |
| Evidence.ScalarAnswersMislead | nautilus_india/dhan/execution.py:283-293 | For every order that passes the checks there is a run in which it is working and called rejected |
| Evidence.AcceptedMeansHeld | nautilus_india/dhan/execution.py:295-301 | With true acknowledgements an accepted order is held, under the id its event carries |
| Evidence.SilenceDecidesNothing | nautilus_india/dhan/execution.py:259-268 | Why an unanswered write gets no event: the client is in the same state whether the order was never placed or is working |
| Evidence.DegradedForGood | nautilus_india/dhan/execution.py:19-23 | Once degraded, always degraded, and no placement of any of the three kinds starts again, however many calls were waiting |
| Evidence.DegradedByAnAddress | nautilus_india/dhan/execution.py:269-282 | The latch is set if and only if some call was delivered a failure that is not DH-904 or Rate_Limit and whose message says "invalid IP" or "not whitelisted" in any casing |
| Evidence.WordsDegrade | nautilus_india/dhan/errors.py:105-107 | One error message in those words, delivered to any call, sets it |
| Evidence.NothingIsSentByAccident | nautilus_india/dhan/config.py:59-83 | If `live_orders` is off, or the variable is anything but "1", no run sends anything |
| Evidence.BothSwitchesAreNeeded | nautilus_india/dhan/config.py:71-77 | Each of the three kinds of placement is refused as disabled if and only if `live_orders` is off or the variable is anything but "1" |
| Evidence.BracketsShareOneFate | nautilus_india/dhan/execution.py:657-733 | The orders of a list are told the same thing in every run if and only if the list is not both longer than three and acknowledged |
| Witnesses.FourLegsPartWays | nautilus_india/dhan/execution.py:723-733 | A run in which the fourth order of an acknowledged list is told something else |
| Evidence.AcceptedIdsDiffer | nautilus_india/dhan/execution.py:719-733 | No two orders of a session are accepted under one venue id, legs of all brackets included, when order ids hold no colon |
| Evidence.DeliveriesAreAnswers | nautilus_india/dhan/http.py:108-123 | What is delivered for a call is what the venue answered to that call |
| Evidence.ClosingMeans | nautilus_india/dhan/execution.py:257-301 | What each transport outcome makes the client say about the k-th order of a call |
| Evidence.FatesLast | nautilus_india/dhan/execution.py:218-301 | A settled call stays settled the same way in every continuation |
| Protocol.LogIsScript | nautilus_india/dhan/execution.py:218-301 | In every interleaving the facts about an order are exactly the script of the one call that carries it |
| Protocol.PostsAreScript | nautilus_india/dhan/execution.py:249-258 | A request goes out for an order exactly when its call passed, exactly once, and is that call's request |
| Protocol.StrangersAreSilent | nautilus_india/dhan/execution.py:218-301 | Nothing is said or sent about an order no call carries |
| Protocol.RecordsAreSound | nautilus_india/dhan/execution.py:303-336 | Every call that was sent had passed every check on a client not degraded |
| ForeverOrders.PlacePayload | nautilus_india/dhan/forever_orders.py:109-151 | The checks in the source's order, or the attribute that is missing; otherwise every key with its value, the second leg's only when there is one |
| ForeverOrders.WhichOrdersMayRest | nautilus_india/dhan/forever_orders.py:122-151 | Exactly which orders may rest: CNC or MTF, with a trigger, of a mapped type, validity and segment, and a second leg with both its prices |
| ForeverOrders.WhatForeverOrdersSay | nautilus_india/dhan/forever_orders.py:122-151 | In Dhan's words: the side, the type the order becomes, OCO or SINGLE, and each leg's own price, trigger and quantity |
| ForeverOrders.WhenForeverOrdersSendEmpty | nautilus_india/dhan/forever_orders.py:125-151 | Told nothing empty, a forever order holds an empty string if and only if it has no price |
| ForeverOrders.WhenForeverOrdersSendNothing | nautilus_india/dhan/forever_orders.py:125-151 | Key by key, exactly when it does, whatever it is told |
| Witnesses.EmptyPricesRest | nautilus_india/dhan/forever_orders.py:138-143 | A stop-market order passes, to rest, and sends an empty price |
| Refinement.Replay | nautilus_india/dhan/execution.py:218-301 | Driven through any run, however its calls overlap, a new client object ends with exactly the run's log, requests and latch |
| Refinement.Start | nautilus_india/dhan/execution.py:218-258 | Starting any of the three kinds of call does what the run's step says |
| Refinement.Finish | nautilus_india/dhan/execution.py:257-301 | Finishing any of the three kinds of call does what the run's step says |
| ExecutionClient.DhanExecutionClient.RefusalFor | nautilus_india/dhan/execution.py:303-336 | The first failing check, found by building the payload with a placeholder id |
| ExecutionClient.DhanExecutionClient.StartSubmitOrder | nautilus_india/dhan/execution.py:218-258 | Checks to request in one step: denied and nothing sent, or submitted and one request with the payload's own correlation id, instrument, side and units |
| ExecutionClient.DhanExecutionClient.FinishSubmitOrder | nautilus_india/dhan/execution.py:257-301 | The answer's whole effect on log and latch, and exactly when an exception escapes |
| ExecutionClient.DhanExecutionClient.Tell | nautilus_india/dhan/execution.py:689-695 | The loop that tells every order of a list the same fact, in order |
| ExecutionClient.DhanExecutionClient.StartSubmitOrderList | nautilus_india/dhan/execution.py:657-698 | All legs denied, or all submitted and one request read out of the built payload; or nothing at all when a leg lacks a price attribute |
| ExecutionClient.DhanExecutionClient.SuperOrderRefusal | nautilus_india/dhan/execution.py:735-763 | The first failing gate or check of a bracket, found by building the payload with a placeholder id |
| ExecutionClient.DhanExecutionClient.FinishSubmitOrderList | nautilus_india/dhan/execution.py:697-733 | One answer's effect on every leg, each accepted under its own leg id until the legs run out |
| ExecutionClient.DhanExecutionClient.StartForeverOrder | nautilus_india/dhan/execution.py:815-867 | The same for an order that rests past the close, whose checks come in another order |
| ExecutionClient.DhanExecutionClient.FinishForeverOrder | nautilus_india/dhan/execution.py:866-891 | The answer's whole effect, which is that of a single order's |
| ExecutionClient.DhanExecutionClient.StartCancelOrder | nautilus_india/dhan/execution.py:340-358 | Without a venue id the cancel is refused and nothing is sent; with one, one DELETE and no event |
| ExecutionClient.DhanExecutionClient.FinishCancelOrder | nautilus_india/dhan/execution.py:357-384 | Silence says nothing; canceled if and only if a body was no refusal |
| ExecutionClient.DhanExecutionClient.StartModifyOrder | nautilus_india/dhan/execution.py:431-462 | The whole terms sent, each given and not zero or else the cached order's, in units; refused when one is missing; raised, with nothing said, when the cached order has no price attribute or a term cannot be mapped |
| ExecutionClient.DhanExecutionClient.FinishModifyOrder | nautilus_india/dhan/execution.py:461-492 | Silence says nothing; updated if and only if a body was no refusal |
| ExecutionClient.DhanExecutionClient.HandleOrderUpdate | nautilus_india/dhan/execution.py:934-991 | What a frame makes the client say, the order number whose trades it asks for, and when it raises |
| ExecutionClient.DhanExecutionClient.EmitFillsFor | nautilus_india/dhan/execution.py:984-1018 | All fills of a read are said in order, or, on a failed read or a bad row of any kind, none |
| Answers.AmbiguityIsSilence | nautilus_india/dhan/http.py:69-123 | Ambiguous if and only if a write read no JSON; never from a read; a body means the same to both |
| Answers.BodiesDecide | nautilus_india/dhan/errors.py:133-159 | A body raises exactly when it is a failure or no container, and raises a transport error exactly when no container |
| Answers.ArrayFails | nautilus_india/dhan/errors.py:195-222 | An array is a failure exactly when some element is, wherever it stands |
| Answers.LastFieldWins | nautilus_india/dhan/execution.py:299 | What an object says under a key is what its last field under it says, wherever it stands |
| Answers.WhichObjectsFail | nautilus_india/dhan/errors.py:162-222 | Exactly which objects fail: one of three error fields, or a status that is not success in any casing; as an element of an array only the message counts |
| Answers.RefusalsSay | nautilus_india/dhan/errors.py:164-169 | A refusal is told in its own message, code and type, each in its place |
| Answers.UnspecifiedRefusals | nautilus_india/dhan/errors.py:164-169 | A refusal is unspecified exactly when its message is one of the values that say nothing, and otherwise is told as `str()` does |
| Answers.EnvelopesSay | nautilus_india/dhan/errors.py:188-192 | A failed envelope is told in the messages and codes its data maps |
| Answers.CodesSplit | nautilus_india/dhan/errors.py:225-231 | All codes, in order, with commas |
| Answers.MessagesSplit | nautilus_india/dhan/errors.py:225-231 | All messages, in order, with semicolons |
| Answers.GatewaysSay | nautilus_india/dhan/errors.py:175-186 | The gateway's error names the path and is typed apart |
| Answers.ElementsSay | nautilus_india/dhan/errors.py:215-221 | An element that is no success is told in its own message and code |
| Answers.PayloadsAre | nautilus_india/dhan/errors.py:153-159 | An envelope is opened exactly when its status is success to the letter and it holds data; anything else that is no failure is handed over whole |
| Answers.AddressRefusals | nautilus_india/dhan/errors.py:234-249 | Exactly which class a body's first failure raises, by DH-904 or Rate_Limit and by the two phrases in any casing, and that no other code decides it |
| Reconciliation.SilentOrdersComeBack | nautilus_india/dhan/execution.py:592-595 | After any run a successful read of the book returns every ordinary order the venue holds, unanswered ones included, at its row's place, under its own client id, on its instrument and side, for its own quantity, in the status its row words, and open exactly when that word is TRANSIT, PENDING or PART_TRADED |
| Reconciliation.StrangersStayStrangers | nautilus_india/dhan/orders.py:497-501 | A row that derives from none of our ids is still reported, and as nobody's |
| Reconciliation.OurRowsReportAsOurs | nautilus_india/dhan/orders.py:476-533 | A row that echoes our request reports as that order: id, instrument, side, filled and total lots, and the status of exactly its own word |
| Reconciliation.CollectedInOrder | nautilus_india/dhan/execution.py:517-542 | One report per resolvable row, in order, and none besides |
| Reconciliation.CollectedRaises | nautilus_india/dhan/execution.py:517-542 | A read raises if and only if a row is no object, or resolves and is bad |
| Reconciliation.WhenBooksRaise | nautilus_india/dhan/orders.py:476-533 | For the order book: a row that is no object, or one of a known instrument without an orderId, of an unknown status, or with a count, price, average or time that does not convert or a count that is not whole lots |
| Reconciliation.RowsToReports | nautilus_india/dhan/execution.py:517-542 | The appending loop computes that collection for any builder |
| Reconciliation.GenerateOrderStatusReports | nautilus_india/dhan/execution.py:592-595 | A failed read is let through as an exception, never answered as an empty book |
| Reconciliation.UnambiguousMastersAreFaithful | nautilus_india/dhan/execution.py:501-509 | With an unambiguous master every named instrument is what its wire name resolves to |
| Brackets.HeldBracketsComeBack | nautilus_india/dhan/execution.py:802-813 | After any run a successful read of the super order book returns every bracket the venue holds: its entry on its side, in the status its row words and for its units, under its own client id if and only if that went out as itself, and each leg the venue gave it, no other report of the book under any of these ids |
| Brackets.AcceptedLegsAreReported | nautilus_india/dhan/execution.py:719-733 | A leg called accepted is reported under the very id it was accepted under, as soon as the venue names it |
| Brackets.BooksAreOfDifferentOrders | nautilus_india/dhan/super_orders.py:8-13 | In every run the rows of the super order book are of different orders |
| Brackets.RowStandsAt | nautilus_india/dhan/super_orders.py:280-315 | Each row's own reports stand together in the book's, in the rows' order |
| Lookup.GenerateOrderStatusReport | nautilus_india/dhan/execution.py:544-590 | The path by whichever id there is, no order for the venue's words for it alone, every other failure let through, and the first report otherwise |
| Lookup.WhenThereIsNoOrder | nautilus_india/dhan/execution.py:120-130 | No order if and only if a plain refusal says "incorrect request for order" in any casing |
| Lookup.VenueIdFindsTheOrder | nautilus_india/dhan/execution.py:549-556 | Asked by its venue id, an order the venue holds is reported as ours in every run, or its row is bad and raises |
| Lookup.ClientIdFindsTheOrder | nautilus_india/dhan/execution.py:557-590 | Asked by its client id, a held order is answered as no order if and only if the id was not sent as itself; otherwise it is reported as ours |
| Lookup.AskedIdsComeFirst | nautilus_india/dhan/execution.py:536-539 | A row that echoes the id asked by is reported under it, whatever other ids derive the same |
| Lookup.BookIdsDiffer | nautilus_india/dhan/execution.py:549-556 | No two rows answer to one venue id, in any run |
| Stream.StreamFillsAreTheTrades | nautilus_india/dhan/execution.py:984-1018 | Over any frames, repeats and failed reads included, and whatever each frame finds in the cache, the fills said of an order, collapsed by trade id, are distinct and exactly the trades of its last reported read, in whatever order the venue lists them |
| Stream.StreamKeepsTheOrder | nautilus_india/dhan/execution.py:1002-1018 | For a venue that lists new trades after old ones they are those trades in its own order |
| Stream.EveryFillIsATrade | nautilus_india/dhan/execution.py:928-932 | Every fill said is a row the venue returned to a read of the very order number that order's frame named |
| Stream.FilledLotsAreTradedUnits | nautilus_india/dhan/execution.py:1002-1018 | Collapsed by trade id, lots filled times the lot are the units traded, however the reads are ordered |
| Stream.StrangersFramesSayNothing | nautilus_india/dhan/execution.py:949-958 | A frame whose correlation id is none of ours says and asks nothing |
| Stream.FrameTotalsDoNotMatter | nautilus_india/dhan/order_updates.py:27-31 | Of readable alerts the number, status, correlation id and reason decide; a frame's totals and prices reach nothing |
| Stream.WhenHandlerRaises | nautilus_india/dhan/execution.py:934-1018 | Exactly when the handler raises, which its documentation says is never, in terms of the frame's fields, its number first, the cache and the rows read |
| Stream.WhenFaultIsUncaught | nautilus_india/dhan/order_updates.py:180-200 | An alert breaks off if and only if a field, its number and status among them, fails as no ValueError and none read before it fails |
| Stream.WhenTradesAreAsked | nautilus_india/dhan/execution.py:949-991 | Trades are asked for if and only if a readable alert of a fill is for an order of ours with a cached instrument, and by the alert's own number |
| Stream.WhichAlertsAreRead | nautilus_india/dhan/order_updates.py:180-200 | An alert is read exactly when every field converts and its status is one of the seven in either casing |
| Stream.WhatAlertsSay | nautilus_india/dhan/execution.py:958-985 | Status by status: accepted, canceled, expired, rejected in its own words, nothing of one in transit, and never a fill |
| Witnesses.NumberlessAlertsRaise | nautilus_india/dhan/order_updates.py:183 | An alert without its number raises, whoever's it is |
| Witnesses.EmptyNumbersAreCaught | nautilus_india/dhan/order_updates.py:183 | An alert whose number no venue order id may be does not, whatever comes after |
| Witnesses.BadPricesRaise | nautilus_india/dhan/order_updates.py:141-146 | A price that is no decimal raises, whoever's it is |
| Witnesses.BadCountsAreCaught | nautilus_india/dhan/order_updates.py:188-192 | A count that is no number, read before such a price, is caught |
| Witnesses.EachBadTradeRaises | nautilus_india/dhan/orders.py:551-568 | A good trade does not raise; without any one of what it needs it does |
| Stream.FillsOfOneFrame | nautilus_india/dhan/execution.py:981-1018 | A frame adds to an order's fills all of its read's, or nothing |
| Orders.ClientOrderIdFor | nautilus_india/dhan/orders.py:239-257 | Finds a candidate that derives the id; None if and only if the id is empty or none does |
| Orders.FindClientOrderId | nautilus_india/dhan/orders.py:239-257 | The early-return search computes it |
| Orders.CorrelationMapsBack | nautilus_india/dhan/orders.py:210-257 | Every id of the session maps back to itself, in any candidate order |
| Orders.WhenIdsCollide | nautilus_india/dhan/orders.py:210-236 | Exactly how two ids can share a correlation id |
| Orders.WhichIdsAreSent | nautilus_india/dhan/orders.py:198-235 | An id goes out as itself exactly when it has one to 25 letters, digits, spaces, underscores and hyphens |
| Orders.LotsInvertUnits | nautilus_india/dhan/orders.py:430-448 | Lots invert units if and only if the quantity is whole |
| Witnesses.HalfLotsDoNotComeBack | nautilus_india/dhan/orders.py:189-195 | Half a contract goes out as units that are no whole lots |
| Orders.UnitsInvertLots | nautilus_india/dhan/orders.py:189-195 | What is reported in whole lots is those lots' units again, without its sign |
| Orders.PlacePayload | nautilus_india/dhan/orders.py:271-331 | Refuses with the first failing check, or says exactly the keys that apply, each with its value, quantities in units |
| Orders.WhichOrdersAreSent | nautilus_india/dhan/orders.py:289-331 | Exactly which orders are sent: a side, one of four types, a trigger where the type waits for one, a mapped validity and segment, one of six products and, after hours, one of four windows |
| Orders.WhatOrdersSay | nautilus_india/dhan/orders.py:107-123 | BUY exactly for a purchase and SELL for a sale; each of the four types and the two validities by its own word |
| Orders.WhatOrdersCount | nautilus_india/dhan/orders.py:289-331 | The price of a limit, the trigger of a stop, the window after hours and the counts in units, each exactly when it applies |
| Orders.NothingIsSentEmpty | nautilus_india/dhan/orders.py:283-290 | Told nothing empty, an ordinary placement holds no empty string under any key |
| Orders.WhenOrdersSendNothing | nautilus_india/dhan/orders.py:283-290 | Key by key, exactly when an ordinary placement holds an empty string |
| Orders.StatusesAreWorded | nautilus_india/dhan/orders.py:399-407 | Each of the seven statuses is read from its own word alone, and the three open words give the open ones |
| Orders.ReportsSayTheirRows | nautilus_india/dhan/orders.py:476-533 | A report's side, status, type, validity, prices, reason and times are its row's own, a reason only of a dead order |
| Orders.EchoedTermsComeBack | nautilus_india/dhan/orders.py:499-507 | Terms echoed as sent: the side comes back; the type if and only if it is a limit or a market order; the validity if and only if it is not good till cancelled |
| Witnesses.StopsComeBackAsLimits | nautilus_india/dhan/orders.py:503-507 | A stop-limit order good till cancelled comes back as a day limit |
| Orders.FillsSayTheirTrades | nautilus_india/dhan/orders.py:536-568 | A fill's side is its trade's word, and its order id and trade id are not mixed up |
| SuperOrders.PlacePayload | nautilus_india/dhan/super_orders.py:90-150 | The checks in the source's order, or the attribute that is missing; otherwise every key with its value |
| SuperOrders.WhenSuperOrdersSendEmpty | nautilus_india/dhan/super_orders.py:136-150 | Told nothing empty, a super order holds an empty string if and only if its entry has no price |
| SuperOrders.WhenSuperOrdersSendNothing | nautilus_india/dhan/super_orders.py:136-150 | Key by key, exactly when it does, whatever it is told |
| Witnesses.EmptyPricesAreBracketed | nautilus_india/dhan/super_orders.py:146 | A bracket with a market entry passes and sends an empty price |
| SuperOrders.LegIdsAreDistinct | nautilus_india/dhan/super_orders.py:210-218 | For order ids without a colon, leg ids are equal if and only if order and leg are |
| SuperOrders.WhenLegIdsCollide | nautilus_india/dhan/super_orders.py:210-218 | For any ids at all, exactly when two legs share one |
| Witnesses.ColonsCollide | nautilus_india/dhan/super_orders.py:210-218 | Two legs that share an id when order ids may hold colons |
| SuperOrders.WhichBracketsAreSent | nautilus_india/dhan/super_orders.py:107-141 | Exactly which brackets are sent: a limit or market entry, legs that face it, the target beyond the stop, a mapped segment and one of four products |
| SuperOrders.WhatBracketsSay | nautilus_india/dhan/super_orders.py:137-150 | In Dhan's words: the entry's side and type, the target's price as target, the stop at its trigger or else its price |
| SuperOrders.LegIdsAre | nautilus_india/dhan/super_orders.py:210-218 | The three ids of an order, spelled out |
| SuperOrders.EntriesSayTheirRows | nautilus_india/dhan/super_orders.py:228-277 | An entry's report says its row's own side, status, counts, prices, reason and times |
| SuperOrders.LegsSayTheirRows | nautilus_india/dhan/super_orders.py:221-277 | A leg's report says the leg's own side and price, its status or else its row's, the first of its three counts that is not zero or else its row's, and nothing filled |
| SuperOrders.ReportsFrom | nautilus_india/dhan/super_orders.py:280-315 | The nested loops compute the reports, or raise at the first bad row or bad leg |
| SuperOrders.WhenSuperBooksRaise | nautilus_india/dhan/super_orders.py:228-315 | Exactly when reading the super order book raises, by row and leg and what each reads |
| SuperOrders.WhenLegsRaise | nautilus_india/dhan/super_orders.py:240-277 | Exactly when one leg's report raises: its status, the order's id, counts, price, times, and the average for the entry alone |
| SuperOrders.ReportsAreFor | nautilus_india/dhan/super_orders.py:280-315 | One report per leg, in order, under that leg's own id |
| SuperOrders.ReportIdsAreDistinct | nautilus_india/dhan/super_orders.py:280-315 | Report ids are pairwise distinct if and only if no resolvable row's details repeat a leg or name the entry |
| Witnesses.EntriesAreReportedTwice | nautilus_india/dhan/super_orders.py:292-314 | A row whose details name its entry gives two reports under one id |
| SuperOrders.EntryIdsAreCast | nautilus_india/dhan/super_orders.py:240-255 | The entry gives the caller's id back if and only if it was sent as itself |
| Witnesses.LongIdsComeBackChanged | nautilus_india/dhan/super_orders.py:251-255 | An id of the engine's own length comes back as another |
| Witnesses.LongIdsAreNotFound | nautilus_india/dhan/execution.py:549-558 | A lost reply, a held order, and a lookup by its client id that answers there is none |
| Providers.SegmentsRoundTrip | nautilus_india/dhan/constants.py:38-79 | Segment names and codes invert each other, and every code the master gives has a name |
| Providers.RoutesAreThese | nautilus_india/dhan/providers.py:52-68 | The nine listings that can be sent, each by exchange, letter, feed code and REST word, and no other |
| Providers.PrecisionIsExactAndLeast | nautilus_india/dhan/providers.py:82-96 | The precision prints the tick exactly, as at least one unit, and is the least of two or more that does |
| Providers.NormalizePrints | nautilus_india/dhan/providers.py:91-96 | Normalising a tick changes nothing about how it prints |
| Providers.Added | nautilus_india/dhan/providers.py:139-159 | What a load adds prints, passes the filters and had not expired |
| Providers.WhichRowsAreKept | nautilus_india/dhan/providers.py:148-151 | A row is kept through its last day and when each filter that is set admits it |
| Providers.WhatRowsBecome | nautilus_india/dhan/providers.py:213-245 | One contract is the master's lot exactly for futures and options; the code is -1 exactly when there is none; the precision prints the tick |
| Providers.DhanInstrumentProvider.LoadAll | nautilus_india/dhan/providers.py:139-159 | A load appends the kept rows to the provider's history, both maps following, and raises exactly on a kept row that will not print |
| Providers.MapsHoldLatest | nautilus_india/dhan/providers.py:155-159 | Each map holds what the latest row for its key said, after any history |
| Providers.IdentitySurvives | nautilus_india/dhan/execution.py:501-509 | A routable instrument's wire name resolves to it if and only if no other has since been listed under the same id and segment |
| Providers.UnambiguousMasterIsFaithful | nautilus_india/dhan/providers.py:121-135 | With an unambiguous master every routable instrument survives the wire |
| Providers.UnroutableHasNoName | nautilus_india/dhan/orders.py:173-186 | An instrument without a feed code has no wire name |
| Providers.SharedIndexSegmentCollides | nautilus_india/dhan/providers.py:52-68 | Two indices under one id, one on each exchange: the first resolves to the second |
| Symbology.ParseInvertsPrint | nautilus_india/core/symbology.py:157-170 | Parsing a printed key gives it back if and only if the key is canonical, over every printable key |
| Witnesses.IndicesReadAsEquities | nautilus_india/core/symbology.py:22-26 | An index prints as a name that reads as an equity |
| Symbology.PrintInvertsParse | nautilus_india/core/symbology.py:157-170 | Printing a parsed symbol gives it back if and only if it is written the printer's way, over every non-empty symbol |
| Witnesses.SpacedDaysPrintOtherwise | nautilus_india/core/symbology.py:105-110 | A symbol that reads as a contract and prints as another |
| Symbology.NoCollision | nautilus_india/core/symbology.py:10-15 | No two canonical contracts share a symbol |
| Symbology.WhyContractsDoNotPrint | nautilus_india/core/symbology.py:61-102 | Exactly when a contract prints, and the first reason it does not |
| Symbology.WhichStampsAreDates | nautilus_india/core/symbology.py:105-110 | Exactly which six digits are a date, and which |
| Symbology.LeapDaysAreContracts | nautilus_india/core/symbology.py:113-139 | A name, yy0229, nine digits and a right are an option of that day in every fourth year, and a plain name otherwise |
| Symbology.CasingsPrintAlike | nautilus_india/core/symbology.py:82-102 | Underlyings print alike exactly when they differ in casing alone |
| Symbology.SymbolsSortAsContracts | nautilus_india/core/symbology.py:10-15 | Option symbols of one underlying sort by expiry, strike and right |
| Symbology.OptionShape | nautilus_india/core/symbology.py:113-139 | What the parser makes of every text of the option's shape |
| Symbology.FutureShape | nautilus_india/core/symbology.py:142-154 | What the parser makes of every text of the future's shape |
| Symbology.OptionParts | nautilus_india/core/symbology.py:113-139 | Every text read as an option has that shape |
| Symbology.FutureParts | nautilus_india/core/symbology.py:142-154 | Every text read as a future has that shape |
| Symbology.TryOfStamp | nautilus_india/core/symbology.py:105-110 | A stamp reads back as its date if and only if the year is 1969 to 2068 |
| Symbology.StampOfTry | nautilus_india/core/symbology.py:105-110 | A readable stamp prints back if and only if its day is not space-padded |
| Symbology.Paise | nautilus_india/core/symbology.py:61-79 | A strike that encodes is its paise exactly |
| Framing.ScanTiles | nautilus_india/dhan/binary.py:125-151 | The blocks the loop visits are the frame, without gap or overlap |
| Framing.ScanOfFlat | nautilus_india/dhan/binary.py:125-151 | Any well-framed run of blocks is read back exactly |
| Framing.PrefixIsSafe | nautilus_india/dhan/binary.py:125-151 | Cutting a frame short never invents or alters a block |
| Framing.WholeBlockSize | nautilus_india/dhan/binary.py:127-146 | A visited block is a known packet of its size or an unknown one of its declared length, more than a header either way |
| MarketFeed.PayloadRoundTrip | nautilus_india/dhan/binary.py:159-206 | Every payload's bytes read back field by field |
| MarketFeed.HeaderBytes | nautilus_india/dhan/binary.py:37-40 | Code, length, segment and id by their offsets, the least byte first |
| MarketFeed.TickerBytes | nautilus_india/dhan/binary.py:162-164 | Sixteen bytes of code 2: a price and a time by their offsets |
| MarketFeed.PrevCloseBytes | nautilus_india/dhan/binary.py:166-168 | Sixteen bytes of code 6: the previous close and open interest |
| MarketFeed.OpenInterestBytes | nautilus_india/dhan/binary.py:170-172 | Twelve bytes of code 5 |
| MarketFeed.QuoteBytes | nautilus_india/dhan/binary.py:174-180 | Fifty bytes of code 4, field by field |
| MarketFeed.FullBytes | nautilus_india/dhan/binary.py:182-191 | A hundred and sixty-two bytes of code 8, field by field, with five levels |
| MarketFeed.DisconnectBytes | nautilus_india/dhan/binary.py:193-195 | Ten bytes of code 50 |
| MarketFeed.WritePacket | nautilus_india/dhan/binary.py:41-67 | A written packet has its code's size and reads back, under any declared length |
| MarketFeed.WriteRead | nautilus_india/dhan/binary.py:159-206 | And any bytes of a known code's size are what their packet writes |
| FeedDecoder.Decoder.Frame | nautilus_india/dhan/binary.py:122-151 | Returns the frame's packets and moves every counter by what the frame holds |
| FeedDecoder.Decoder.Walk | nautilus_india/dhan/binary.py:125-146 | The offset loop, both stride policies and both ways out |
| FeedTheorems.DecodeInvertsEncode | nautilus_india/dhan/binary.py:122-151 | Any packets, under any declared lengths, foreign messages among them and a short tail behind, decode to exactly those packets, untruncated |
| FeedTheorems.WholeFrameIsEncoded | nautilus_india/dhan/binary.py:122-151 | Conversely every untruncated frame is such an encoding |
| FeedTheorems.PrefixDecodesToPrefix | nautilus_india/dhan/binary.py:125-151 | A prefix of a frame decodes to a prefix of its packets |
| FeedTheorems.PacketsAreReturned | nautilus_india/dhan/binary.py:145-151 | The packets are the visited known blocks read one by one |
| FeedTheorems.FrameBounds | nautilus_india/dhan/binary.py:125-151 | Ten bytes a packet and nine a skip fit in the frame; mismatches are packets or the truncated one |
| FeedTheorems.Conservation | nautilus_india/dhan/binary.py:114-151 | Over any run of frames the counters are exactly the calls, the packets, the multi-packet calls and the truncated calls |
| FeedTheorems.LengthsDoNotMatter | nautilus_india/dhan/binary.py:127-146 | Frames that differ only in known packets' declared lengths decode alike; only mismatches may differ |
| FeedTheorems.WhichLengthsMismatch | nautilus_india/dhan/binary.py:138-139 | A packet counts as a mismatch exactly when it declares neither its size nor its size without the header |
| DepthFeed.DecodeDepth20Frame | nautilus_india/dhan/binary.py:209-246 | The depth socket's loop computes its decoding |
| DepthFeed.DepthBytes | nautilus_india/dhan/binary.py:215-243 | Bids by code 41 and asks by 51, a signed id, the sequence number and twenty levels by their offsets |
| DepthFeed.DecodeInvertsEncode | nautilus_india/dhan/binary.py:209-246 | Bids and asks come back in order with all twenty levels and sequence numbers, unpaired |
| DepthFeed.WholeFrameIsEncoded | nautilus_india/dhan/binary.py:209-246 | Conversely every frame read to its end is such an encoding |
| DepthFeed.WriteRead | nautilus_india/dhan/binary.py:222-243 | Every bid or ask on the wire is what its packet writes |
| Float32.PriceSurvives | nautilus_india/dhan/binary.py:92-103 | Below the bound every price survives rounding to binary32 and back, whichever neighbour a tie takes |
| Float32.RoundsToNearestEven | nautilus_india/dhan/binary.py:103 | Printing rounds to the nearest and, of two as near, to the even |
| Float32.RecoveryBound | nautilus_india/dhan/binary.py:92-103 | At one decimal or more all prices below 2^E can come back if and only if 2^E times 10^d is below 2^24; at none, if and only if 2^E is at most 2^24 |
| Float32.FirstOddNumberIsLost | nautilus_india/dhan/binary.py:92-103 | 2^24 + 1 is what no binary32 prints as at no decimals |
| Float32.PaiseFailPast131072 | nautilus_india/dhan/binary.py:92-103 | 131072.01 has a nearest binary32, and it comes back as 131072.02 |
| Float32.EveryPriceHasANearest | nautilus_india/dhan/binary.py:92-103 | Every price of any decimals has a nearest binary32, so the bound is about values a sender can send |
| Float32.OnlyNearest | nautilus_india/dhan/binary.py:92-103 | 131072.01 has only one |
| Float32.SomePriceIsLost | nautilus_india/dhan/binary.py:92-103 | Past the bound some price is what no binary32 prints as |
| Float32.BitsAreBinary32 | nautilus_india/dhan/binary.py:52-58 | Every finite bit pattern is one of the values above |
| Float32.Binary32HasBits | nautilus_india/dhan/binary.py:52-58 | And every such value has a bit pattern |
| Subscription.SubscriptionPacket | nautilus_india/dhan/ws.py:37-66 | Refuses too many instruments or a long id, exactly then; otherwise the layout, of one fixed size |
| Subscription.PacketBytes | nautilus_india/dhan/ws.py:44-66 | Every one of the 2187 bytes: the code, the length, the client in thirty, fifty zeros, the count, the slots and the padding |
| Subscription.Chunked | nautilus_india/dhan/ws.py:69-75 | The stepping loop yields the chunks |
| Subscription.ChunksTile | nautilus_india/dhan/ws.py:69-75 | Chunks join to the list, none empty or too long, and are as few as can be |
| Subscription.PacketReadsBack | nautilus_india/dhan/ws.py:37-66 | A packet reads back, declares 87 and 21 a slot, and returns the instruments if and only if no id ends in a zero byte |
| Subscription.SubscriptionsReadBack | nautilus_india/dhan/ws.py:37-75 | A whole subscription is asked for once and in order, under the same condition |
| Witnesses.TrailingZerosAreLost | nautilus_india/dhan/ws.py:37-66 | An id that ends in a zero byte is heard without it |
| Fees.RatesOn | nautilus_india/core/fees.py:83-90 | The first period that covers the date; None if and only if none does |
| Fees.PeriodsCoverTheirEnds | nautilus_india/core/fees.py:84-86 | A period covers its first day, its last and those between |
| Fees.WhoPaysWhat | nautilus_india/core/fees.py:100-117 | A sale pays the tax and no stamp, a purchase the reverse, and GST falls on brokerage and exchange charges alone |
| Fees.WhatFillsCost | nautilus_india/core/fees.py:149-158 | A fill is charged on its price times its units, and only the first pays the brokerage |
| Fees.CostsAdd | nautilus_india/core/fees.py:100-117 | Every charge but the brokerage and its GST is additive in turnover |
| Fees.SplitOrdersCost | nautilus_india/core/fees.py:149-158 | Any number of fills cost a single fill of the whole turnover plus the brokerage's GST once for each fill after the first |
| Fees.WhenSplittingIsFree | nautilus_india/core/fees.py:149-158 | Splitting is free if and only if there is one fill or no such GST |
| Witnesses.TwoFillsCostMore | nautilus_india/core/fees.py:149-158 | Two fills of a lot at the flat brokerage and its tax cost Rs 3.60 more than one of both |

## Left out

- Sockets, asyncio scheduling, logging, CSV, YAML and JSON text: a step is what runs between two awaits, and rows and bodies arrive parsed.
- The Nautilus engine: orders and events are plain values, and taking fills in by trade id (`Stream.Absorb`) is an assumption about the engine.
- The hash: a digest is any function, and keeping the session's ids apart is a hypothesis. The charset test is a full match, although the source's `$` also admits a trailing newline.
- The cache is taken to hold the provider's own instruments, and the provider's maps do not change during a run of the order path.
- Modifies inside a run of the order path: `Protocol` lets a row's status and fills change but not its quantity.
- The order slicing route, cancel-all, and cancels and modifies of super and forever orders: one branch each.
- What Nautilus's own types refuse of a price, a count or an id that converts.
- Forever order reports and position reports: the same loop with one more status table.
- Reconciliation.SilentOrdersComeBack: covers the ordinary order book; `Brackets.HeldBracketsComeBack` covers the super order book, and the forever book is not modelled.
- The fields of an order alert that only need to convert are kept as whether they do, and how they fail if they do not; those that cannot fail are left out.
- The `order_updates_connected` flag and the reconnect loop around the stream handler.
- Infinities and NaNs, which have no value as a price.
- Unicode digits and case mappings in symbols, Decimal context limits, and rounding to `Money`.
- A zero `Quantity` or `Price` counts as absent, as Python's `or` has it for a falsy value; Nautilus's own truth value is not part of this model.
- `exercise_cost`, `calendar.py`, `lots.py`, `margin.py`, `auth.py` and `data.py`: one-branch members or unmodelled venue behaviour.
