/**
 * The order-update stream (`_handle_order_update`, `_emit_fills_for`). A frame
 * that says something filled is only a reason to ask for the order's trades.
 */
module Stream {
  import opened Symbology
  import opened Providers
  import opened Orders
  import opened Execution
  import opened Reconciliation
  import opened Wrappers

  // ----- frames ------------------------------------------------------------

  /** A field converted: to a value, or failing as a ValueError, or as anything else. */
  datatype Conversion<T> = Converts(value: T) | FailsAsValueError | FailsOtherwise

  /**
   * One frame: other traffic, or an order alert. A number that is missing fails
   * as a KeyError, and one that no venue order id may be as a ValueError. The
   * converted fields stand in the order they are read; an absent one converts.
   */
  datatype Frame =
    | OtherTraffic
    | OrderAlert(
        orderNo: Conversion<string>, status: string, correlationId: string, reason: string,
        quantity: Conversion<int>, tradedQty: Conversion<int>, remaining: Conversion<int>,
        average: Conversion<Maybe<real>>, price: Conversion<Maybe<real>>,
        stamp: Conversion<int>, legNo: Conversion<Maybe<int>>)

  /** What converting comes to for the caller, who catches ValueError alone. */
  datatype Outcome = Fine | Caught | Uncaught

  function OutcomeOf<T>(c: Conversion<T>): Outcome
  {
    match c case Converts(_) => Fine case FailsAsValueError => Caught case FailsOtherwise => Uncaught
  }

  function First(a: Outcome, rest: Outcome): Outcome
  {
    if a.Fine? then rest else a
  }

  /** A status that is not known is a ValueError, in either casing. */
  function StatusOutcome(status: string): Outcome
  {
    if StatusNamed(Upper(status)).Some? then Fine else Caught
  }

  /** The first field not to convert decides: the number, the status, and then the rest. */
  function Fault(frame: Frame): Outcome
    requires frame.OrderAlert?
  {
    First(OutcomeOf(frame.orderNo), First(StatusOutcome(frame.status), FaultInFields(frame)))
  }

  function FaultInFields(frame: Frame): Outcome
    requires frame.OrderAlert?
  {
    First(OutcomeOf(frame.quantity), First(OutcomeOf(frame.tradedQty), First(OutcomeOf(frame.remaining),
      First(OutcomeOf(frame.average), First(OutcomeOf(frame.price),
        First(OutcomeOf(frame.stamp), OutcomeOf(frame.legNo)))))))
  }

  datatype Parsed =
    | Nothing
    | Unreadable
    | Raised
    | Update(
        venueOrderId: string, status: OrderStatus, correlationId: string, reason: string,
        tradedQty: int, average: Maybe<real>)

  /** `order_updates.parse`. */
  function Parse(frame: Frame): Parsed
  {
    if frame.OtherTraffic? then Nothing
    else
      match Fault(frame)
      case Caught => Unreadable
      case Uncaught => Raised
      case Fine =>
        Update(frame.orderNo.value, StatusNamed(Upper(frame.status)).value, frame.correlationId, frame.reason,
               frame.tradedQty.value, frame.average.value)
  }

  /** What this session knows of its own orders when a frame arrives. */
  datatype Cache = Cache(ids: seq<string>, orders: map<string, Order>)

  /** What a frame leads to before any read: what is said, the order number to ask the trades of, or an exception. */
  datatype Reaction = Tells(events: seq<Event>) | Asks(order: Order, orderNo: string) | Raises

  const TELLS_NOTHING: Reaction := Tells([])

  function Announced(u: Parsed): (fact: Maybe<Fact>)
    requires u.Update?
  {
    match u.status
    case ACCEPTED => Some(Accepted(u.venueOrderId))
    case CANCELED => Some(Canceled(u.venueOrderId))
    case REJECTED => Some(Rejected(ByFrame(if u.reason != "" then u.reason else "rejected by the venue")))
    case EXPIRED => Some(Expired(u.venueOrderId))
    case SUBMITTED => None
    case FILLED => None
    case PARTIALLY_FILLED => None
  }

  predicate IsTraded(status: OrderStatus)
  {
    status.FILLED? || status.PARTIALLY_FILLED?
  }

  function React(env: Env, cache: Cache, frame: Frame): Reaction
  {
    var u := Parse(frame);
    if u.Raised? then Raises
    else if !u.Update? then TELLS_NOTHING
    else
      match ClientOrderIdFor(env.digest, u.correlationId, cache.ids)
      case None => TELLS_NOTHING
      case Some(id) =>
        if id !in cache.orders then TELLS_NOTHING
        else if IsTraded(u.status) then
          if InCache(env, cache.orders[id].instrument) then Asks(cache.orders[id], u.venueOrderId) else TELLS_NOTHING
        else
          match Announced(u) case None => TELLS_NOTHING case Some(fact) => Tells([Event(StreamPath, id, fact)])
  }

  // ----- the trades read back ----------------------------------------------

  /** A read of one order's trades: an exception, or rows, None for one that is no object. */
  datatype Trades = TradesUnread | TradeRows(rows: seq<Maybe<TradeRow>>)

  function ResolveTrade(env: Env): TradeRow -> Maybe<Instrument>
  {
    (row: TradeRow) => InstrumentFor(env.maps, row.wire)
  }

  function BuildTrade(): (TradeRow, Instrument) -> Result<FillReport, ReportError>
  {
    (row: TradeRow, instrument: Instrument) => TradeReport(row, instrument)
  }

  function Fills(env: Env, rows: seq<Maybe<TradeRow>>): Result<seq<FillReport>, ReportError>
  {
    Collected(rows, ResolveTrade(env), BuildTrade())
  }

  function FillEvents(id: string, fills: seq<FillReport>): seq<Event>
  {
    seq(|fills|, k requires 0 <= k < |fills| => Event(StreamPath, id, Filled(fills[k])))
  }

  /** All of a read's fills are said, or, when one row is bad, the exception escapes and none is. */
  function FillsSaid(env: Env, order: Order, trades: Trades): seq<Event>
  {
    match trades
    case TradesUnread => []
    case TradeRows(rows) =>
      match Fills(env, rows) case Err(_) => [] case Ok(fills) => FillEvents(order.id, fills)
  }

  // ----- sequences of frames -----------------------------------------------

  /** A frame, what is known when it arrives, and what asking for any order's trades would then come to. */
  datatype Input = Input(cache: Cache, frame: Frame, answers: string -> Trades)

  function Said(env: Env, input: Input): seq<Event>
  {
    match React(env, input.cache, input.frame)
    case Tells(events) => events
    case Asks(order, orderNo) => FillsSaid(env, order, input.answers(orderNo))
    case Raises => []
  }

  function AllSaid(env: Env, inputs: seq<Input>): seq<Event>
  {
    if |inputs| == 0 then []
    else AllSaid(env, inputs[..|inputs| - 1]) + Said(env, inputs[|inputs| - 1])
  }

  /** The fills said of one order, in order. */
  function FillsFor(log: seq<Event>, id: string): seq<FillReport>
  {
    if log == [] then []
    else
      var n := |log| - 1;
      FillsFor(log[..n], id) + (if log[n].id == id && log[n].fact.Filled? then [log[n].fact.fill] else [])
  }

  /** The rows a frame gets reported for this order: a trade frame of its own, its number asked of, no row bad. */
  function RowsReported(env: Env, input: Input, id: string): (rows: Maybe<seq<Maybe<TradeRow>>>)
    ensures rows.Some? ==> Fills(env, rows.value).Ok?
  {
    match React(env, input.cache, input.frame)
    case Tells(_) => None
    case Raises => None
    case Asks(order, orderNo) =>
      var trades := input.answers(orderNo);
      if order.id == id && trades.TradeRows? && Fills(env, trades.rows).Ok? then Some(trades.rows) else None
  }

  /** The rows of the last read that was reported. */
  function LastRows(env: Env, inputs: seq<Input>, id: string): (rows: seq<Maybe<TradeRow>>)
    ensures Fills(env, rows).Ok?
  {
    if |inputs| == 0 then []
    else
      var n := |inputs| - 1;
      var rows := RowsReported(env, inputs[n], id);
      if rows.Some? then rows.value else LastRows(env, inputs[..n], id)
  }

  predicate SameTrade(r: Maybe<TradeRow>, s: Maybe<TradeRow>)
  {
    r.Some? && s.Some? && r.value.tradeId.Some? && r.value.tradeId == s.value.tradeId
  }

  predicate TradesDiffer(rows: seq<Maybe<TradeRow>>)
  {
    forall i, j :: 0 <= i < j < |rows| ==> !SameTrade(rows[i], rows[j])
  }

  /** The venue keeps every trade of an order it has listed, in whatever place, and no trade id repeats. */
  ghost predicate Growing(env: Env, inputs: seq<Input>, id: string)
  {
    |inputs| == 0 ||
    var n := |inputs| - 1;
    && Growing(env, inputs[..n], id)
    && var rows := RowsReported(env, inputs[n], id);
       rows.Some? ==> (forall r :: r in LastRows(env, inputs[..n], id) ==> r in rows.value) && TradesDiffer(rows.value)
  }

  // ----- collapsing by trade id --------------------------------------------

  predicate HasTrade(book: seq<FillReport>, tradeId: string)
  {
    exists i :: 0 <= i < |book| && book[i].tradeId == tradeId
  }

  /** How an engine that knows trade ids takes fills in: a repeated one changes nothing. */
  function Absorb(book: seq<FillReport>, fills: seq<FillReport>): seq<FillReport>
    decreases |fills|
  {
    if fills == [] then book
    else Absorb(if HasTrade(book, fills[0].tradeId) then book else book + [fills[0]], fills[1..])
  }

  lemma {:induction false} AbsorbAppends(book: seq<FillReport>, a: seq<FillReport>, b: seq<FillReport>)
    ensures Absorb(book, a + b) == Absorb(Absorb(book, a), b)
    decreases |a|
  {
    hide HasTrade;
    if a == [] {
      assert a + b == b;
    } else {
      assert (a + b)[1..] == a[1..] + b;
      AbsorbAppends(if HasTrade(book, a[0].tradeId) then book else book + [a[0]], a[1..], b);
    }
  }

  predicate FillsDiffer(fills: seq<FillReport>)
  {
    forall i, j :: 0 <= i < j < |fills| ==> fills[i].tradeId != fills[j].tradeId
  }

  predicate Within(some: seq<FillReport>, whole: seq<FillReport>)
  {
    forall k :: 0 <= k < |some| ==> some[k] in whole
  }

  /** A fill whose trade is already there is there already. */
  lemma KnownFill(book: seq<FillReport>, fill: FillReport, whole: seq<FillReport>)
    requires FillsDiffer(whole) && Within(book, whole) && fill in whole
    ensures HasTrade(book, fill.tradeId) <==> fill in book
  {
  }

  /** Taking in fills of one set of trades keeps exactly those taken in, each once. */
  lemma {:induction false} AbsorbWithin(book: seq<FillReport>, fills: seq<FillReport>, whole: seq<FillReport>)
    requires FillsDiffer(book) && FillsDiffer(whole) && Within(book, whole) && Within(fills, whole)
    ensures FillsDiffer(Absorb(book, fills))
    ensures forall f :: f in Absorb(book, fills) <==> f in book || f in fills
    decreases |fills|
  {
    hide HasTrade, Within, FillsDiffer;
    if fills != [] {
      FirstAndRest(fills, whole);
      KnownFill(book, fills[0], whole);
      var next := if HasTrade(book, fills[0].tradeId) then book else book + [fills[0]];
      StillDiffer(book, fills[0], whole);
      AbsorbWithin(next, fills[1..], whole);
      assert fills == [fills[0]] + fills[1..];
    }
  }

  lemma FirstAndRest(fills: seq<FillReport>, whole: seq<FillReport>)
    requires fills != [] && Within(fills, whole)
    ensures fills[0] in whole && Within(fills[1..], whole)
  {
  }

  lemma StillDiffer(book: seq<FillReport>, fill: FillReport, whole: seq<FillReport>)
    requires FillsDiffer(book) && Within(book, whole) && fill in whole
    ensures !HasTrade(book, fill.tradeId) ==> FillsDiffer(book + [fill])
    ensures Within(book + [fill], whole)
  {
  }

  lemma {:induction false} CountOnce(fills: seq<FillReport>, f: FillReport)
    requires FillsDiffer(fills)
    ensures multiset(fills)[f] == if f in fills then 1 else 0
    decreases |fills|
  {
    if fills != [] {
      var n := |fills| - 1;
      assert fills == fills[..n] + [fills[n]];
      CountOnce(fills[..n], f);
    }
  }

  lemma SameFills(a: seq<FillReport>, b: seq<FillReport>)
    requires FillsDiffer(a) && FillsDiffer(b) && forall f :: f in a <==> f in b
    ensures multiset(a) == multiset(b)
  {
    forall f ensures multiset(a)[f] == multiset(b)[f] {
      CountOnce(a, f);
      CountOnce(b, f);
    }
  }

  function Max(a: nat, b: nat): nat
  {
    if a < b then b else a
  }

  lemma {:induction false} AbsorbGrown(fills: seq<FillReport>, had: nat, k: nat)
    requires FillsDiffer(fills) && had <= |fills| && k <= |fills|
    ensures Absorb(fills[..Max(had, k)], fills[k..]) == fills
    decreases |fills| - k
  {
    if k == |fills| {
      assert fills[..Max(had, k)] == fills;
    } else {
      var book := fills[..Max(had, k)];
      assert fills[k..][0] == fills[k] && fills[k..][1..] == fills[k + 1..];
      if k < had {
        assert book[k].tradeId == fills[k].tradeId;
      } else {
        assert book + [fills[k]] == fills[..Max(had, k + 1)];
      }
      AbsorbGrown(fills, had, k + 1);
    }
  }

  lemma AbsorbExtension(had: seq<FillReport>, fills: seq<FillReport>)
    requires had <= fills && FillsDiffer(fills)
    ensures Absorb(had, fills) == fills
  {
    AbsorbGrown(fills, |had|, 0);
    assert fills[..Max(|had|, 0)] == had;
    assert fills[0..] == fills;
  }

  // ----- fills from rows ---------------------------------------------------

  lemma {:induction false} FillsOfPrefix(env: Env, rows: seq<Maybe<TradeRow>>, more: seq<Maybe<TradeRow>>)
    requires rows <= more && Fills(env, rows).Ok? && Fills(env, more).Ok?
    ensures Fills(env, rows).value <= Fills(env, more).value
  {
    hide InstrumentFor, TradeReport;
    if rows != [] {
      FillsOfPrefix(env, rows[1..], more[1..]);
    }
  }

  predicate IsFillOf(env: Env, row: Maybe<TradeRow>, fill: FillReport)
  {
    row.Some? && InstrumentFor(env.maps, row.value.wire).Some?
    && TradeReport(row.value, InstrumentFor(env.maps, row.value.wire).value) == Ok(fill)
  }

  /** Every fill is the report of some row of the read. */
  lemma {:induction false} FillsAreRows(env: Env, rows: seq<Maybe<TradeRow>>, k: nat) returns (j: nat)
    requires Fills(env, rows).Ok? && k < |Fills(env, rows).value|
    ensures j < |rows| && IsFillOf(env, rows[j], Fills(env, rows).value[k])
  {
    hide InstrumentFor, TradeReport;
    if InstrumentFor(env.maps, rows[0].value.wire).None? {
      j := FillsAreRows(env, rows[1..], k);
      j := j + 1;
    } else if k == 0 {
      j := 0;
    } else {
      j := FillsAreRows(env, rows[1..], k - 1);
      j := j + 1;
    }
  }

  /** And every row that resolves gives a fill. */
  lemma {:induction false} RowsGiveFills(env: Env, rows: seq<Maybe<TradeRow>>, j: nat, fill: FillReport)
    requires Fills(env, rows).Ok? && j < |rows| && IsFillOf(env, rows[j], fill)
    ensures fill in Fills(env, rows).value
  {
    hide InstrumentFor, TradeReport;
    if j > 0 {
      RowsGiveFills(env, rows[1..], j - 1, fill);
    }
  }

  lemma FillsOfMore(env: Env, rows: seq<Maybe<TradeRow>>, more: seq<Maybe<TradeRow>>)
    requires Fills(env, rows).Ok? && Fills(env, more).Ok? && forall r :: r in rows ==> r in more
    ensures Within(Fills(env, rows).value, Fills(env, more).value)
  {
    hide Fills, IsFillOf;
    var fills := Fills(env, rows).value;
    forall k | 0 <= k < |fills| ensures fills[k] in Fills(env, more).value {
      var j := FillsAreRows(env, rows, k);
      assert rows[j] in more;
      var l :| 0 <= l < |more| && more[l] == rows[j];
      RowsGiveFills(env, more, l, fills[k]);
    }
  }

  lemma {:induction false} FillsOfDifferingTrades(env: Env, rows: seq<Maybe<TradeRow>>)
    requires Fills(env, rows).Ok? && TradesDiffer(rows)
    ensures FillsDiffer(Fills(env, rows).value)
  {
    hide InstrumentFor;
    if rows != [] {
      FillsOfDifferingTrades(env, rows[1..]);
      var fills := Fills(env, rows).value;
      var rest := Fills(env, rows[1..]).value;
      if InstrumentFor(env.maps, rows[0].value.wire).Some? {
        forall k | 0 <= k < |rest| ensures rest[k].tradeId != fills[0].tradeId {
          var j := FillsAreRows(env, rows[1..], k);
          assert !SameTrade(rows[0], rows[j + 1]);
        }
        assert fills == [fills[0]] + rest;
      }
    }
  }

  lemma {:induction false} FillsForAppends(a: seq<Event>, b: seq<Event>, id: string)
    ensures FillsFor(a + b, id) == FillsFor(a, id) + FillsFor(b, id)
    decreases |b|
  {
    if b == [] {
      assert a + b == a;
    } else {
      var n := |b| - 1;
      assert (a + b)[..|a| + n] == a + b[..n];
      FillsForAppends(a, b[..n], id);
    }
  }

  lemma {:induction false} FillsForOwn(id: string, other: string, fills: seq<FillReport>)
    ensures FillsFor(FillEvents(other, fills), id) == if other == id then fills else []
    decreases |fills|
  {
    if fills != [] {
      var n := |fills| - 1;
      FillsForOwn(id, other, fills[..n]);
      assert FillEvents(other, fills)[..n] == FillEvents(other, fills[..n]);
    }
  }

  /** What one frame adds to an order's fills. */
  lemma {:induction false} FillsOfOneFrame(env: Env, input: Input, id: string)
    ensures
      var rows := RowsReported(env, input, id);
      FillsFor(Said(env, input), id) == if rows.Some? then Fills(env, rows.value).value else []
  {
    hide Fills, Parse, ClientOrderIdFor;
    var r := React(env, input.cache, input.frame);
    if r.Tells? {
      SaidIsNoFill(env, input.cache, input.frame, id);
    } else if r.Asks? && input.answers(r.orderNo).TradeRows? && Fills(env, input.answers(r.orderNo).rows).Ok? {
      FillsForOwn(id, r.order.id, Fills(env, input.answers(r.orderNo).rows).value);
    }
  }

  lemma SaidIsNoFill(env: Env, cache: Cache, frame: Frame, id: string)
    requires React(env, cache, frame).Tells?
    ensures FillsFor(React(env, cache, frame).events, id) == []
  {
    hide Parse, ClientOrderIdFor;
    var events := React(env, cache, frame).events;
    if events != [] {
      assert |events| == 1 && events[..0] == [];
    }
  }

  // ----- faithful and idempotent -------------------------------------------

  lemma NoFillsYet(env: Env, id: string)
    ensures FillsFor([], id) == [] && Absorb([], []) == [] && Fills(env, []) == Ok([])
  {
  }

  lemma AbsorbNothing(book: seq<FillReport>)
    ensures Absorb(book, []) == book
  {
  }

  /** One more frame, taken in after the rest. */
  lemma AbsorbLast(env: Env, inputs: seq<Input>, id: string)
    requires |inputs| > 0
    ensures
      var n := |inputs| - 1;
      var rows := RowsReported(env, inputs[n], id);
      Absorb([], FillsFor(AllSaid(env, inputs), id))
        == Absorb(Absorb([], FillsFor(AllSaid(env, inputs[..n]), id)),
                  if rows.Some? then Fills(env, rows.value).value else [])
  {
    hide Fills, Said, RowsReported, FillsFor, Absorb;
    var n := |inputs| - 1;
    var before, said := AllSaid(env, inputs[..n]), Said(env, inputs[n]);
    FillsForAppends(before, said, id);
    FillsOfOneFrame(env, inputs[n], id);
    AbsorbAppends([], FillsFor(before, id), FillsFor(said, id));
  }

  /** The fills an engine is left with: distinct trades, and exactly the read's. */
  ghost predicate AreExactly(kept: seq<FillReport>, fills: seq<FillReport>)
  {
    FillsDiffer(kept) && FillsDiffer(fills) && forall f :: f in kept <==> f in fills
  }

  lemma {:induction false} KeptAreTheTrades(env: Env, inputs: seq<Input>, id: string)
    requires Growing(env, inputs, id)
    ensures AreExactly(Absorb([], FillsFor(AllSaid(env, inputs), id)), Fills(env, LastRows(env, inputs, id)).value)
    decreases |inputs|
  {
    hide Fills, RowsReported, FillsFor, Absorb, TradesDiffer, FillsDiffer, AllSaid;
    if |inputs| == 0 {
      NothingKept(env, inputs, id);
    } else {
      var n := |inputs| - 1;
      KeptAreTheTrades(env, inputs[..n], id);
      AbsorbLast(env, inputs, id);
      var kept := Absorb([], FillsFor(AllSaid(env, inputs[..n]), id));
      var rows := RowsReported(env, inputs[n], id);
      if rows.Some? {
        var now := Fills(env, rows.value).value;
        FillsOfMore(env, LastRows(env, inputs[..n], id), rows.value);
        FillsOfDifferingTrades(env, rows.value);
        WithinMore(kept, Fills(env, LastRows(env, inputs[..n], id)).value, now);
        AbsorbWithin(kept, now, now);
      } else {
        AbsorbNothing(kept);
      }
    }
  }

  lemma WithinMore(kept: seq<FillReport>, had: seq<FillReport>, now: seq<FillReport>)
    requires (forall f :: f in kept <==> f in had) && Within(had, now)
    ensures Within(kept, now) && Within(now, now) && forall f :: f in kept ==> f in now
  {
    forall k | 0 <= k < |kept| ensures kept[k] in now {
      assert kept[k] in had;
    }
  }

  lemma NothingKept(env: Env, inputs: seq<Input>, id: string)
    requires |inputs| == 0
    ensures AreExactly(Absorb([], FillsFor(AllSaid(env, inputs), id)), Fills(env, LastRows(env, inputs, id)).value)
  {
    NoFillsYet(env, id);
  }

  /**
   * Faithful and idempotent. Over any sequence of frames, repeats and unread
   * frames included, the fills said of an order, collapsed by trade id, are
   * distinct trades and exactly those of its last reported read, in whatever
   * order the venue listed them from one read to the next.
   */
  lemma {:induction false} StreamFillsAreTheTrades(env: Env, inputs: seq<Input>, id: string)
    requires Growing(env, inputs, id)
    ensures
      var kept := Absorb([], FillsFor(AllSaid(env, inputs), id));
      FillsDiffer(kept) && multiset(kept) == multiset(Fills(env, LastRows(env, inputs, id)).value)
  {
    hide Growing, Fills, LastRows, AllSaid, FillsFor, Absorb, FillsDiffer;
    KeptAreTheTrades(env, inputs, id);
    SameFills(Absorb([], FillsFor(AllSaid(env, inputs), id)), Fills(env, LastRows(env, inputs, id)).value);
  }

  /** A venue that only ever lists new trades after the old. */
  ghost predicate GrowingInOrder(env: Env, inputs: seq<Input>, id: string)
  {
    |inputs| == 0 ||
    var n := |inputs| - 1;
    && GrowingInOrder(env, inputs[..n], id)
    && var rows := RowsReported(env, inputs[n], id);
       rows.Some? ==> LastRows(env, inputs[..n], id) <= rows.value && TradesDiffer(rows.value)
  }

  /** For such a venue the collapsed fills are its trades in its own order. */
  lemma {:induction false} StreamKeepsTheOrder(env: Env, inputs: seq<Input>, id: string)
    requires GrowingInOrder(env, inputs, id)
    ensures Absorb([], FillsFor(AllSaid(env, inputs), id)) == Fills(env, LastRows(env, inputs, id)).value
    decreases |inputs|
  {
    hide Fills, RowsReported, FillsFor, Absorb, TradesDiffer, FillsDiffer, AllSaid;
    if |inputs| == 0 {
      NothingInOrder(env, inputs, id);
    } else {
      var n := |inputs| - 1;
      StreamKeepsTheOrder(env, inputs[..n], id);
      AbsorbLast(env, inputs, id);
      var had := Fills(env, LastRows(env, inputs[..n], id)).value;
      var rows := RowsReported(env, inputs[n], id);
      if rows.Some? {
        FillsOfPrefix(env, LastRows(env, inputs[..n], id), rows.value);
        FillsOfDifferingTrades(env, rows.value);
        AbsorbExtension(had, Fills(env, rows.value).value);
      } else {
        AbsorbNothing(had);
      }
    }
  }

  lemma NothingInOrder(env: Env, inputs: seq<Input>, id: string)
    requires |inputs| == 0
    ensures Absorb([], FillsFor(AllSaid(env, inputs), id)) == Fills(env, LastRows(env, inputs, id)).value
  {
    NoFillsYet(env, id);
  }

  /**
   * Every fill ever said of an order is a row the venue returned, to a read of
   * the very number a frame of that order named.
   */
  lemma {:induction false} EveryFillIsATrade(env: Env, inputs: seq<Input>, id: string, k: nat) returns (m: nat, j: nat)
    requires k < |FillsFor(AllSaid(env, inputs), id)|
    ensures m < |inputs| && RowsReported(env, inputs[m], id).Some?
    ensures
      var r := React(env, inputs[m].cache, inputs[m].frame);
      && r.Asks? && r.order.id == id && inputs[m].frame.OrderAlert? && inputs[m].frame.orderNo == Converts(r.orderNo)
      && var trades := inputs[m].answers(r.orderNo);
         && trades.TradeRows? && j < |trades.rows|
         && IsFillOf(env, trades.rows[j], FillsFor(AllSaid(env, inputs), id)[k])
    decreases |inputs|
  {
    hide Fills, Said, React, FillsFor, IsFillOf;
    if |inputs| == 0 {
      NoFillsYet(env, id);
      assert false;
    } else {
      var n := |inputs| - 1;
      var before, said := AllSaid(env, inputs[..n]), Said(env, inputs[n]);
      FillsForAppends(before, said, id);
      if k < |FillsFor(before, id)| {
        m, j := EveryFillIsATrade(env, inputs[..n], id, k);
      } else {
        FillsOfOneFrame(env, inputs[n], id);
        m := n;
        j := FillsAreRows(env, RowsReported(env, inputs[n], id).value, k - |FillsFor(before, id)|);
        AskedByNumber(env, inputs[n]);
      }
    }
  }

  lemma AskedByNumber(env: Env, input: Input)
    ensures
      var r := React(env, input.cache, input.frame);
      r.Asks? ==> input.frame.OrderAlert? && input.frame.orderNo == Converts(r.orderNo)
  {
    hide ClientOrderIdFor, StatusNamed, Upper;
  }

  // ----- conservation ------------------------------------------------------

  function TotalLots(fills: seq<FillReport>): nat
  {
    if fills == [] then 0 else fills[0].lots + TotalLots(fills[1..])
  }

  lemma {:induction false} TotalLotsAppends(a: seq<FillReport>, b: seq<FillReport>)
    ensures TotalLots(a + b) == TotalLots(a) + TotalLots(b)
  {
    if a == [] {
      assert a + b == b;
    } else {
      assert (a + b)[1..] == a[1..] + b;
      TotalLotsAppends(a[1..], b);
    }
  }

  function Without(s: seq<FillReport>, k: nat): seq<FillReport>
    requires k < |s|
  {
    s[..k] + s[k + 1..]
  }

  lemma SameWithout(a: seq<FillReport>, b: seq<FillReport>, k: nat)
    requires |a| > 0 && multiset(a) == multiset(b) && k < |b| && b[k] == a[0]
    ensures multiset(a[1..]) == multiset(Without(b, k))
  {
    assert a == [a[0]] + a[1..];
    assert b == b[..k] + ([b[k]] + b[k + 1..]);
    assert multiset(a[1..]) == multiset(a) - multiset{a[0]};
    assert multiset(Without(b, k)) == multiset(b) - multiset{b[k]};
  }

  lemma TotalWithout(b: seq<FillReport>, k: nat)
    requires k < |b|
    ensures TotalLots(b) == b[k].lots + TotalLots(Without(b, k))
  {
    hide TotalLots;
    assert b == b[..k] + ([b[k]] + b[k + 1..]);
    TotalLotsAppends(b[..k], b[k + 1..]);
    TotalLotsAppends(b[..k], [b[k]] + b[k + 1..]);
    TotalLotsAppends([b[k]], b[k + 1..]);
    TotalOfOne(b[k]);
  }

  lemma TotalOfOne(fill: FillReport)
    ensures TotalLots([fill]) == fill.lots
  {
  }

  /** The order of fills does not matter to their total. */
  lemma {:induction false} TotalLotsOfSame(a: seq<FillReport>, b: seq<FillReport>)
    requires multiset(a) == multiset(b)
    ensures TotalLots(a) == TotalLots(b)
    decreases |a|
  {
    hide Without;
    if a == [] {
      assert |multiset(b)| == 0;
      assert b == [];
    } else {
      assert a[0] in multiset(b);
      var k :| 0 <= k < |b| && b[k] == a[0];
      SameWithout(a, b, k);
      TotalWithout(b, k);
      TotalLotsOfSame(a[1..], Without(b, k));
    }
  }

  function Magnitude(units: int): nat
  {
    if units < 0 then -units else units
  }

  /** The units of a trade, 0 for a row that has none. */
  function UnitsOf(row: Maybe<TradeRow>): nat
  {
    if row.Some? && row.value.units.Some? then Magnitude(row.value.units.value) else 0
  }

  function TotalUnits(rows: seq<Maybe<TradeRow>>): nat
  {
    if rows == [] then 0 else UnitsOf(rows[0]) + TotalUnits(rows[1..])
  }

  /** One fill's lots, times the lot, are its row's units. */
  lemma FillIsUnits(row: TradeRow, instrument: Instrument)
    requires TradeReport(row, instrument).Ok?
    ensures instrument.multiplier * TradeReport(row, instrument).value.lots == UnitsOf(Some(row))
  {
  }

  lemma LotsAdd(lot: Lot, a: nat, b: nat)
    ensures lot * (a + b) == lot * a + lot * b
  {
  }

  lemma {:induction false} LotsAreUnits(env: Env, rows: seq<Maybe<TradeRow>>, instrument: Instrument)
    requires Fills(env, rows).Ok?
    requires forall j ::
      0 <= j < |rows| && rows[j].Some? ==> InstrumentFor(env.maps, rows[j].value.wire) == Some(instrument)
    ensures instrument.multiplier * TotalLots(Fills(env, rows).value) == TotalUnits(rows)
  {
    hide InstrumentFor, TradeReport;
    if rows != [] {
      LotsAreUnits(env, rows[1..], instrument);
      var first := TradeReport(rows[0].value, instrument).value;
      var rest := Fills(env, rows[1..]).value;
      assert Fills(env, rows).value == [first] + rest;
      assert ([first] + rest)[1..] == rest;
      FillIsUnits(rows[0].value, instrument);
      LotsAdd(instrument.multiplier, first.lots, TotalLots(rest));
    }
  }

  /** Collapsed by trade id, the lots filled times the lot are the units traded, however the reads were ordered. */
  lemma {:induction false} FilledLotsAreTradedUnits(env: Env, inputs: seq<Input>, id: string, instrument: Instrument)
    requires Growing(env, inputs, id)
    requires
      var rows := LastRows(env, inputs, id);
      forall j :: 0 <= j < |rows| && rows[j].Some? ==> InstrumentFor(env.maps, rows[j].value.wire) == Some(instrument)
    ensures instrument.multiplier * TotalLots(Absorb([], FillsFor(AllSaid(env, inputs), id)))
      == TotalUnits(LastRows(env, inputs, id))
  {
    hide InstrumentFor, Growing, Absorb, FillsFor, AllSaid, TotalLots, TotalUnits, LastRows, Fills;
    StreamFillsAreTheTrades(env, inputs, id);
    var rows := LastRows(env, inputs, id);
    TotalLotsOfSame(Absorb([], FillsFor(AllSaid(env, inputs), id)), Fills(env, rows).value);
    LotsAreUnits(env, rows, instrument);
  }

  // ----- what a frame can and cannot do ------------------------------------

  /** A readable frame whose correlation id derives from none of our ids says nothing and asks for nothing. */
  lemma StrangersFramesSayNothing(env: Env, cache: Cache, frame: Frame)
    requires Parse(frame).Update?
    requires forall c :: c in cache.ids ==> CorrelationId(env.digest, c) != frame.correlationId
    ensures React(env, cache, frame) == TELLS_NOTHING
  {
    hide CorrelationId, StatusNamed, Upper;
  }

  /** A readable alert's number, status, correlation id and reason decide: its totals and prices reach nothing. */
  lemma FrameTotalsDoNotMatter(env: Env, cache: Cache, a: Frame, b: Frame)
    requires Parse(a).Update? && Parse(b).Update?
    requires a.orderNo == b.orderNo && Upper(a.status) == Upper(b.status)
    requires a.correlationId == b.correlationId && a.reason == b.reason
    ensures React(env, cache, a) == React(env, cache, b)
  {
    hide ClientOrderIdFor, StatusNamed, Upper;
  }

  /** An alert is read exactly when every field converts and its status, in either casing, is one Dhan documents. */
  lemma {:induction false} WhichAlertsAreRead(frame: Frame)
    ensures Parse(frame).Update? <==>
      && frame.OrderAlert? && frame.orderNo.Converts?
      && (Upper(frame.status) in OPEN_WORDS || Upper(frame.status) in CLOSED_WORDS)
      && frame.quantity.Converts? && frame.tradedQty.Converts? && frame.remaining.Converts?
      && frame.average.Converts? && frame.price.Converts? && frame.stamp.Converts? && frame.legNo.Converts?
  {
    hide StatusNamed, Upper, OPEN_WORDS, CLOSED_WORDS, IsWorded;
    if frame.OrderAlert? {
      StatusesAreWorded(Upper(frame.status));
    }
  }

  /**
   * What an alert of ours makes the client say, status by status: accepted,
   * canceled, expired or rejected in its own words; nothing of an order in
   * transit, and nothing of one that traded but a question.
   */
  lemma {:induction false} WhatAlertsSay(env: Env, cache: Cache, frame: Frame, id: string)
    requires Parse(frame).Update? && id in cache.orders
    requires ClientOrderIdFor(env.digest, frame.correlationId, cache.ids) == Some(id)
    ensures
      var r, word, orderNo := React(env, cache, frame), Upper(frame.status), frame.orderNo.value;
      && (word == "PENDING" ==> r == Tells([Event(StreamPath, id, Accepted(orderNo))]))
      && (word == "CANCELLED" ==> r == Tells([Event(StreamPath, id, Canceled(orderNo))]))
      && (word == "EXPIRED" ==> r == Tells([Event(StreamPath, id, Expired(orderNo))]))
      && (word == "REJECTED" ==>
           var reason := if frame.reason == "" then "rejected by the venue" else frame.reason;
           r == Tells([Event(StreamPath, id, Rejected(ByFrame(reason)))]))
      && (word == "TRANSIT" ==> r == Tells([]))
      && (word in {"TRADED", "PART_TRADED"} ==> r == Asks(cache.orders[id], orderNo) || r == Tells([]))
  {
    hide ClientOrderIdFor, Upper;
  }

  // ----- when the handler raises -------------------------------------------

  predicate HandlerRaises(env: Env, input: Input)
  {
    var r := React(env, input.cache, input.frame);
    r.Raises? || (r.Asks? &&
      var trades := input.answers(r.orderNo);
      trades.TradeRows? && Fills(env, trades.rows).Err?)
  }

  /** The conversions of an alert, in the order they are made. */
  function Outcomes(frame: Frame): seq<Outcome>
    requires frame.OrderAlert?
  {
    [OutcomeOf(frame.orderNo), StatusOutcome(frame.status), OutcomeOf(frame.quantity), OutcomeOf(frame.tradedQty),
     OutcomeOf(frame.remaining), OutcomeOf(frame.average), OutcomeOf(frame.price), OutcomeOf(frame.stamp),
     OutcomeOf(frame.legNo)]
  }

  /** A field fails as something else than a ValueError, and none read before it fails at all. */
  predicate BreaksOff(frame: Frame)
    requires frame.OrderAlert?
  {
    exists k :: 0 <= k < |Outcomes(frame)| && Outcomes(frame)[k].Uncaught? &&
      forall j :: 0 <= j < k ==> Outcomes(frame)[j].Fine?
  }

  lemma WhenFaultIsUncaught(frame: Frame)
    requires frame.OrderAlert?
    ensures Fault(frame).Uncaught? <==> BreaksOff(frame)
  {
    var o := Outcomes(frame);
    if Fault(frame).Uncaught? {
      var k := if !o[0].Fine? then 0 else if !o[1].Fine? then 1 else if !o[2].Fine? then 2
        else if !o[3].Fine? then 3 else if !o[4].Fine? then 4 else if !o[5].Fine? then 5
        else if !o[6].Fine? then 6 else if !o[7].Fine? then 7 else 8;
      assert o[k].Uncaught? && forall j :: 0 <= j < k ==> o[j].Fine?;
    }
    if BreaksOff(frame) {
      var k :| 0 <= k < |o| && o[k].Uncaught? && forall j :: 0 <= j < k ==> o[j].Fine?;
      assert (k > 0 ==> o[0].Fine?) && (k > 1 ==> o[1].Fine?) && (k > 2 ==> o[2].Fine?) && (k > 3 ==> o[3].Fine?);
      assert (k > 4 ==> o[4].Fine?) && (k > 5 ==> o[5].Fine?) && (k > 6 ==> o[6].Fine?) && (k > 7 ==> o[7].Fine?);
    }
  }

  const TRADED_STATUSES: set<string> := {"TRADED", "PART_TRADED"}

  /** A readable alert of trades, for an order of ours whose instrument is cached. */
  predicate IsTradeAlert(env: Env, cache: Cache, frame: Frame)
  {
    && frame.OrderAlert? && frame.orderNo.Converts? && Upper(frame.status) in TRADED_STATUSES
    && (forall k :: 0 <= k < |Outcomes(frame)| ==> Outcomes(frame)[k].Fine?)
    && var id := ClientOrderIdFor(env.digest, frame.correlationId, cache.ids);
       id.Some? && id.value in cache.orders && InCache(env, cache.orders[id.value].instrument)
  }

  lemma WhenTradesAreAsked(env: Env, cache: Cache, frame: Frame)
    ensures React(env, cache, frame).Asks? <==> IsTradeAlert(env, cache, frame)
    ensures IsTradeAlert(env, cache, frame) ==>
      React(env, cache, frame)
        == Asks(cache.orders[ClientOrderIdFor(env.digest, frame.correlationId, cache.ids).value], frame.orderNo.value)
  {
    hide ClientOrderIdFor, Upper;
    if frame.OrderAlert? {
      var o := Outcomes(frame);
      assert (forall k :: 0 <= k < |o| ==> o[k].Fine?) <==>
        o[0].Fine? && o[1].Fine? && o[2].Fine? && o[3].Fine? && o[4].Fine? && o[5].Fine? && o[6].Fine? && o[7].Fine?
        && o[8].Fine?;
    }
  }

  /** A trade row that lacks an id, a count in whole lots, a price or a time that converts. */
  predicate IsBadTrade(row: TradeRow, instrument: Instrument)
  {
    row.orderId.None? || row.tradeId.None? || BadCount(instrument.multiplier, row.units)
    || row.price.None? || row.stamp.None?
  }

  /** A row that is no object, or a bad trade in a known instrument. */
  predicate StopsTheRead(env: Env, row: Maybe<TradeRow>)
  {
    row.None? ||
    var instrument := InstrumentFor(env.maps, row.value.wire);
    instrument.Some? && IsBadTrade(row.value, instrument.value)
  }

  predicate IsBadRead(env: Env, trades: Trades)
  {
    trades.TradeRows? && exists j :: 0 <= j < |trades.rows| && StopsTheRead(env, trades.rows[j])
  }

  lemma {:induction false} WhenReadsAreBad(env: Env, trades: Trades)
    ensures (trades.TradeRows? && Fills(env, trades.rows).Err?) <==> IsBadRead(env, trades)
  {
    hide InstrumentFor, Collected;
    if trades.TradeRows? {
      var rows := trades.rows;
      CollectedRaises(rows, ResolveTrade(env), BuildTrade());
      forall j | 0 <= j < |rows|
        ensures IsBad(rows[j], ResolveTrade(env), BuildTrade()) <==> StopsTheRead(env, rows[j])
      {
        if rows[j].Some? {
          WhenTradesAreBad(env, rows[j].value);
        }
      }
    }
  }

  lemma WhenTradesAreBad(env: Env, row: TradeRow)
    ensures IsBad(Some(row), ResolveTrade(env), BuildTrade()) <==> StopsTheRead(env, Some(row))
  {
    hide InstrumentFor;
  }

  /**
   * The handler that never raises does, exactly then: on an alert of which a
   * field, its number first of all, breaks off; and on a readable trade alert
   * of ours whose trades have a bad row.
   */
  lemma WhenHandlerRaises(env: Env, input: Input)
    ensures HandlerRaises(env, input) <==>
      || (input.frame.OrderAlert? && BreaksOff(input.frame))
      || (IsTradeAlert(env, input.cache, input.frame) && IsBadRead(env, input.answers(input.frame.orderNo.value)))
  {
    hide ClientOrderIdFor, StatusNamed, Upper, Fills, IsTradeAlert, IsBadRead, Fault, BreaksOff;
    WhenTradesAreAsked(env, input.cache, input.frame);
    if input.frame.OrderAlert? {
      WhenFaultIsUncaught(input.frame);
      if input.frame.orderNo.Converts? {
        WhenReadsAreBad(env, input.answers(input.frame.orderNo.value));
      }
    }
    NumbersAreAsked(env, input.cache, input.frame);
  }

  lemma NumbersAreAsked(env: Env, cache: Cache, frame: Frame)
    ensures IsTradeAlert(env, cache, frame) ==> frame.OrderAlert? && frame.orderNo.Converts?
  {
  }
}
