/** The report generators: a failed read is not an empty book, and the order book gives silent orders back. */
module Reconciliation {
  import opened Providers
  import opened Orders
  import opened SuperOrders
  import opened Execution
  import opened Protocol
  import opened Wrappers
  import Answers

  // ----- rows to reports ---------------------------------------------------

  /** A row that is an object and names an instrument the provider knows. */
  predicate Resolves<R>(row: Maybe<R>, resolve: R -> Maybe<Instrument>)
  {
    row.Some? && resolve(row.value).Some?
  }

  /**
   * `_reports_from`, for any kind of row: rows that name no instrument are
   * skipped; a row that is no object, None here, raises, and so does a bad one.
   */
  function Collected<R, T>(
    rows: seq<Maybe<R>>, resolve: R -> Maybe<Instrument>, build: (R, Instrument) -> Result<T, ReportError>)
      : Result<seq<T>, ReportError>
  {
    if rows == [] then Ok([])
    else if rows[0].None? then Err(NotAnObject)
    else
      match resolve(rows[0].value)
      case None => Collected(rows[1..], resolve, build)
      case Some(instrument) =>
        match build(rows[0].value, instrument)
        case Err(e) => Err(e)
        case Ok(first) => Chain([first], Collected(rows[1..], resolve, build))
  }

  method RowsToReports<R, T>(
    rows: seq<Maybe<R>>, resolve: R -> Maybe<Instrument>, build: (R, Instrument) -> Result<T, ReportError>)
      returns (r: Result<seq<T>, ReportError>)
    ensures r == Collected(rows, resolve, build)
  {
    hide Chain;
    var found: seq<T> := [];
    ChainChains<T>([], [], Collected(rows, resolve, build));
    assert rows[0..] == rows;
    for i := 0 to |rows|
      invariant Chain(found, Collected(rows[i..], resolve, build)) == Collected(rows, resolve, build)
    {
      var row := rows[i];
      assert rows[i..][0] == row && rows[i..][1..] == rows[i + 1..];
      if row.None? {
        ErrorsPass(found, Collected(rows[i..], resolve, build));
        return Err(NotAnObject);
      }
      var instrument := resolve(row.value);
      if instrument.None? {
        continue;
      }
      var report := build(row.value, instrument.value);
      if report.Err? {
        ErrorsPass(found, Collected(rows[i..], resolve, build));
        return Err(report.error);
      }
      ChainChains(found, [report.value], Collected(rows[i + 1..], resolve, build));
      found := found + [report.value];
    }
    ChainChains(found, [], Ok([]));
    return Ok(found);
  }

  /** How many of the first j rows resolve: where the report of row j stands. */
  function Position<R>(rows: seq<Maybe<R>>, resolve: R -> Maybe<Instrument>, j: nat): (p: nat)
    requires j <= |rows|
    ensures p <= j
  {
    if j == 0 then 0 else (if Resolves(rows[0], resolve) then 1 else 0) + Position(rows[1..], resolve, j - 1)
  }

  /** The result is row j's own report at row j's position, for every resolvable row, and nothing else. */
  lemma {:induction false} CollectedInOrder<R, T>(
    rows: seq<Maybe<R>>, resolve: R -> Maybe<Instrument>, build: (R, Instrument) -> Result<T, ReportError>, j: nat)
    requires Collected(rows, resolve, build).Ok? && j < |rows|
    ensures
      var found := Collected(rows, resolve, build).value;
      && |found| == Position(rows, resolve, |rows|)
      && Position(rows, resolve, j + 1) <= |found| && rows[j].Some?
      && (!Resolves(rows[j], resolve) ==> Position(rows, resolve, j + 1) == Position(rows, resolve, j))
      && (Resolves(rows[j], resolve) ==>
        && Position(rows, resolve, j + 1) == Position(rows, resolve, j) + 1
        && build(rows[j].value, resolve(rows[j].value).value) == Ok(found[Position(rows, resolve, j)]))
  {
    if j > 0 {
      CollectedInOrder(rows[1..], resolve, build, j - 1);
    } else if |rows| > 1 {
      CollectedInOrder(rows[1..], resolve, build, 0);
    }
  }

  /** A row that makes its read raise. */
  predicate IsBad<R, T>(row: Maybe<R>, resolve: R -> Maybe<Instrument>, build: (R, Instrument) -> Result<T, ReportError>)
  {
    row.None? || (Resolves(row, resolve) && build(row.value, resolve(row.value).value).Err?)
  }

  /** One bad row makes the whole read raise, and nothing else does. */
  lemma {:induction false} CollectedRaises<R, T>(
    rows: seq<Maybe<R>>, resolve: R -> Maybe<Instrument>, build: (R, Instrument) -> Result<T, ReportError>)
    ensures Collected(rows, resolve, build).Err? <==> exists j :: 0 <= j < |rows| && IsBad(rows[j], resolve, build)
  {
    if rows != [] {
      CollectedRaises(rows[1..], resolve, build);
      var rest := rows[1..];
      assert forall j :: 0 < j < |rows| ==> rows[j] == rest[j - 1];
      if Collected(rest, resolve, build).Err? {
        var j :| 0 <= j < |rest| && IsBad(rest[j], resolve, build);
        assert IsBad(rows[j + 1], resolve, build);
      }
    }
  }

  // ----- the order book ----------------------------------------------------

  function Resolve(env: Env): OrderRow -> Maybe<Instrument>
  {
    (row: OrderRow) => InstrumentFor(env.maps, row.wire)
  }

  function Build(env: Env, ids: seq<string>): (OrderRow, Instrument) -> Result<OrderReport, ReportError>
  {
    (row: OrderRow, instrument: Instrument) => OrderStatusReport(env.digest, row, instrument, ids)
  }

  /** A read of a book came to an exception, or to rows. */
  datatype Reading = Failed(error: Answers.DhanError) | Rows(rows: seq<Maybe<OrderRow>>)

  datatype BookReports =
    | Unread(error: Answers.DhanError)
    | BadRow(problem: ReportError)
    | Reported(reports: seq<OrderReport>)

  /** `generate_order_status_reports`: the read's own exception is let through. */
  method GenerateOrderStatusReports(env: Env, reading: Reading, ids: seq<string>) returns (r: BookReports)
    ensures reading.Failed? <==> r.Unread?
    ensures reading.Rows? ==>
      var found := Collected(reading.rows, Resolve(env), Build(env, ids));
      r == if found.Ok? then Reported(found.value) else BadRow(found.error)
  {
    if reading.Failed? {
      return Unread(reading.error);
    }
    var found := RowsToReports(reading.rows, Resolve(env), Build(env, ids));
    return if found.Ok? then Reported(found.value) else BadRow(found.error);
  }

  /** A row of a known instrument without an orderId, or with a status, count, price or time that cannot be read. */
  predicate IsBadOrderRow(row: OrderRow, instrument: Instrument)
  {
    row.orderId.None? || !(row.orderStatus in OPEN_WORDS || row.orderStatus in CLOSED_WORDS)
    || BadCount(instrument.multiplier, row.quantity) || BadCount(instrument.multiplier, row.filledQty)
    || row.price.None? || row.trigger.None? || row.average.None? || row.created.None? || row.updated.None?
  }

  /** Exactly when reading a book raises: on a row that is no object, or a bad row of a known instrument. */
  lemma {:induction false} WhenBooksRaise(env: Env, rows: seq<Maybe<OrderRow>>, ids: seq<string>)
    ensures Collected(rows, Resolve(env), Build(env, ids)).Err? <==>
      exists j :: 0 <= j < |rows| &&
        (rows[j].None? ||
          var instrument := InstrumentFor(env.maps, rows[j].value.wire);
          instrument.Some? && IsBadOrderRow(rows[j].value, instrument.value))
  {
    hide InstrumentFor, ClientOrderIdFor, Collected;
    CollectedRaises(rows, Resolve(env), Build(env, ids));
    forall j | 0 <= j < |rows|
      ensures IsBad(rows[j], Resolve(env), Build(env, ids)) <==>
        (rows[j].None? ||
          var instrument := InstrumentFor(env.maps, rows[j].value.wire);
          instrument.Some? && IsBadOrderRow(rows[j].value, instrument.value))
    {
      if rows[j].Some? {
        WhenRowsAreBad(env, rows[j].value, ids);
      }
    }
  }

  lemma {:induction false} WhenRowsAreBad(env: Env, row: OrderRow, ids: seq<string>)
    ensures IsBad(Some(row), Resolve(env), Build(env, ids)) <==>
      var instrument := InstrumentFor(env.maps, row.wire);
      instrument.Some? && IsBadOrderRow(row, instrument.value)
  {
    hide InstrumentFor, ClientOrderIdFor, StatusNamed, CountedLots, BadCount, IsWorded, OPEN_WORDS, CLOSED_WORDS;
    StatusesAreWorded(row.orderStatus);
    if InstrumentFor(env.maps, row.wire).Some? {
      var lot := InstrumentFor(env.maps, row.wire).value.multiplier;
      WhenCountsAreBad(lot, row.quantity);
      WhenCountsAreBad(lot, row.filledQty);
    }
  }

  // ----- where the rows came from ------------------------------------------

  function BookRows(book: seq<Entry>): (rows: seq<Maybe<OrderRow>>)
    ensures |rows| == |book| && forall j :: 0 <= j < |book| ==> rows[j] == Some(book[j].row)
  {
    seq(|book|, j requires 0 <= j < |book| => Some(book[j].row))
  }

  /** A row of ours is the record of a request that went out, under the id it is held as. */
  predicate IsOurs(env: Env, s: State, e: Entry)
    requires e.origin.Some?
  {
    var i := e.origin.value;
    && i < |s.calls| && s.calls[i].call.Single? && Sent(s.calls[i].fate) && Routable(env, s.calls[i].call)
    && Echoes(e.row, RequestOf(env, s.calls[i].call))
    && i in s.venue.held && e.row.orderId == Some(s.venue.held[i])
  }

  lemma {:induction false} OurRowsAreOurs(env: Env, run: Run, j: nat)
    requires j < |After(env, run).venue.book| && After(env, run).venue.book[j].origin.Some?
    ensures IsOurs(env, After(env, run), After(env, run).venue.book[j])
  {
    hide Verdict, Routable, Unused, Distinct, Ids, FreshOrderId, Started, Finished, RequestOf;
    if run.Then? {
      if j < |After(env, run.before).venue.book| {
        OurRowsAreOurs(env, run.before, j);
        var i := After(env, run).venue.book[j].origin.value;
        HeldIsDecided(env, run.before, i);
      }
    }
  }

  lemma {:induction false} HeldIsDecided(env: Env, run: Run, i: nat)
    requires i in After(env, run).venue.held
    ensures i in After(env, run).venue.verdicts
  {
    hide Verdict, Routable, Unused, Distinct, Ids, FreshOrderId, Started, Finished, RequestOf, Echoes;
    if run.Then? && i in After(env, run.before).venue.held {
      HeldIsDecided(env, run.before, i);
    }
  }

  /** Every single order the venue holds is a row of its book. */
  lemma {:induction false} HeldOrdersAreBooked(env: Env, run: Run, i: nat)
    requires i in After(env, run).venue.held && i < |After(env, run).calls| && After(env, run).calls[i].call.Single?
    ensures
      var book := After(env, run).venue.book;
      exists j :: 0 <= j < |book| && book[j].origin == Some(i)
  {
    hide Verdict, Routable, Unused, Distinct, Ids, FreshOrderId, Started, Finished, RequestOf, Echoes;
    if run.Then? {
      var s, a, after := After(env, run.before), run.action, After(env, run);
      if i in s.venue.held {
        HeldHasCall(env, run.before, i);
        HeldOrdersAreBooked(env, run.before, i);
        var j :| 0 <= j < |s.venue.book| && s.venue.book[j].origin == Some(i);
        assert after.venue.book[j].origin == Some(i);
      } else {
        assert after.venue.book[|s.venue.book|].origin == Some(i);
      }
    }
  }

  lemma {:induction false} HeldHasCall(env: Env, run: Run, i: nat)
    requires i in After(env, run).venue.held
    ensures i < |After(env, run).calls|
  {
    hide Verdict, Routable, Unused, Distinct, Ids, FreshOrderId, Started, Finished, RequestOf, Echoes;
    if run.Then? && i in After(env, run.before).venue.held {
      HeldHasCall(env, run.before, i);
    }
  }

  lemma {:induction false} OneRowEach(env: Env, run: Run, j: nat, l: nat)
    requires j < l < |After(env, run).venue.book| && After(env, run).venue.book[j].origin.Some?
    ensures After(env, run).venue.book[j].origin != After(env, run).venue.book[l].origin
  {
    hide Verdict, Routable, Unused, Distinct, Ids, FreshOrderId, Started, Finished, RequestOf, Echoes, IsOurs;
    if run.Then? {
      var s := After(env, run.before);
      if l < |s.venue.book| {
        OneRowEach(env, run.before, j, l);
      } else {
        OurRowsAreDecided(env, run.before, j);
      }
    }
  }

  lemma OurRowsAreDecided(env: Env, run: Run, j: nat)
    requires j < |After(env, run).venue.book| && After(env, run).venue.book[j].origin.Some?
    ensures After(env, run).venue.book[j].origin.value in After(env, run).venue.verdicts
  {
    hide After, Routable, Echoes, RequestOf;
    OurRowsAreOurs(env, run, j);
    HeldIsDecided(env, run, After(env, run).venue.book[j].origin.value);
  }

  // ----- recovery ----------------------------------------------------------

  /** The cache knows every order of the session. */
  ghost predicate Cached(s: State, ids: seq<string>)
  {
    forall i: nat, k: nat, id :: Owns(s.calls, id, i, k) ==> id in ids
  }

  /** Every instrument with a wire name is what its wire name resolves to. */
  ghost predicate Faithful(m: Maps)
  {
    forall id :: id in m.instruments && NameOnWire(m, id).Some? ==>
      InstrumentFor(m, NameOnWire(m, id).value) == Some(m.instruments[id]) && m.instruments[id].id == id
  }

  lemma UnambiguousMastersAreFaithful(history: seq<ScripRow>)
    requires AllGood(history) && Unambiguous(history)
    ensures Faithful(MapsOf(history))
  {
    hide MapsOf, LatestOf, NameOnWire, InstrumentFor, RowCode, Unambiguous;
    var m := MapsOf(history);
    forall id | id in m.instruments && NameOnWire(m, id).Some?
      ensures InstrumentFor(m, NameOnWire(m, id).value) == Some(m.instruments[id]) && m.instruments[id].id == id
    {
      MapsHoldLatest(history, id, "", 0);
      if RowCode(LatestOf(history, id).value).None? {
        UnroutableHasNoName(history, id);
      } else {
        UnambiguousMasterIsFaithful(history, id);
      }
    }
  }

  /** A row that echoes one of our requests reports as that order. */
  lemma {:induction false} OurRowsReportAsOurs(env: Env, order: Order, row: OrderRow, ids: seq<string>)
    requires Routable(env, Single(order)) && Echoes(row, RequestOf(env, Single(order))) && Faithful(env.maps)
    requires Distinguishes(env.digest, set c | c in ids) && order.id in ids
    ensures Resolve(env)(row) == Some(env.maps.instruments[order.instrument])
    ensures
      var instrument := env.maps.instruments[order.instrument];
      var r := Build(env, ids)(row, instrument);
      r.Ok? ==>
        && r.value.clientOrderId == Some(order.id) && r.value.instrument == order.instrument
        && Some(r.value.venueOrderId) == row.orderId && (r.value.side.BUY? <==> order.side.BUY?)
        && IsWorded(r.value.status, row.orderStatus) && (IsOpen(r.value.status) <==> row.orderStatus in OPEN_WORDS)
        && row.filledQty.Some? && UnitsFor(instrument.multiplier, r.value.filled as real)
           == (if row.filledQty.value < 0 then -row.filledQty.value else row.filledQty.value)
        && UnitsFor(instrument.multiplier, r.value.quantity as real) == UnitsFor(instrument.multiplier, order.quantity)
        && (order.quantity == order.quantity.Floor as real ==> r.value.quantity as real == order.quantity)
  {
    hide CorrelationId, ClientOrderIdFor, UnitsFor, LotsFor, StatusNamed, NameOnWire, InstrumentFor, Distinguishes,
         IsWorded, IsOpen;
    var instrument := env.maps.instruments[order.instrument];
    StatusesAreWorded(row.orderStatus);
    CorrelationMapsBack(env.digest, order.id, ids);
    LotsInvertUnits(instrument.multiplier, order.quantity);
    if row.quantity.Some? && LotsFor(instrument.multiplier, row.quantity.value).Ok? {
      UnitsInvertLots(instrument.multiplier, row.quantity.value);
    }
    if row.filledQty.Some? && LotsFor(instrument.multiplier, row.filledQty.value).Ok? {
      UnitsInvertLots(instrument.multiplier, row.filledQty.value);
    }
  }

  /**
   * Reconciliation recovers silence. After any run, whatever became of the
   * write, an order this session placed on the ordinary path and the venue
   * holds is in a successful read of the book, exactly where its row stands,
   * under its own client order id, on its own instrument and side, in the status
   * its row words and open exactly when that word is of an open order, and for
   * its own units; for its own quantity, when that is whole.
   */
  lemma SilentOrdersComeBack(env: Env, run: Run, ids: seq<string>, i: nat)
    requires Faithful(env.maps) && Cached(After(env, run), ids) && Distinguishes(env.digest, set c | c in ids)
    requires i in After(env, run).venue.held && i < |After(env, run).calls| && After(env, run).calls[i].call.Single?
    requires Collected(BookRows(After(env, run).venue.book), Resolve(env), Build(env, ids)).Ok?
    ensures
      var s := After(env, run);
      var rows, order := BookRows(s.venue.book), s.calls[i].call.order;
      var reports := Collected(rows, Resolve(env), Build(env, ids)).value;
      InCache(env, order.instrument) &&
      var lot := env.maps.instruments[order.instrument].multiplier;
      exists j: nat :: j < |rows| && s.venue.book[j].origin == Some(i) &&
        var p := Position(rows, Resolve(env), j);
        && p < |reports| && reports[p].venueOrderId == s.venue.held[i]
        && IsWorded(reports[p].status, s.venue.book[j].row.orderStatus)
        && (IsOpen(reports[p].status) <==> s.venue.book[j].row.orderStatus in OPEN_WORDS)
        && reports[p].side == order.side && reports[p].clientOrderId == Some(order.id)
        && reports[p].instrument == order.instrument
        && UnitsFor(lot, reports[p].quantity as real) == UnitsFor(lot, order.quantity)
        && (order.quantity == order.quantity.Floor as real ==> reports[p].quantity as real == order.quantity)
  {
    hide After, Resolve, Build, Position, Collected, Echoes, RequestOf, Distinguishes, Faithful, UnitsFor, NameOnWire,
         Ids, StatusNamed, IsWorded, IsOpen, OPEN_WORDS;
    var s := After(env, run);
    HeldOrdersAreBooked(env, run, i);
    var j: nat :| j < |s.venue.book| && s.venue.book[j].origin == Some(i);
    OurRowsAreOurs(env, run, j);
    var order := s.calls[i].call.order;
    OwnedBySingle(s, i);
    SentOrdersTrade(env, run, i);
    OurRowsReportAsOurs(env, order, s.venue.book[j].row, ids);
    ReportsTrade(env, ids, s.venue.book[j].row, env.maps.instruments[order.instrument]);
    CollectedInOrder(BookRows(s.venue.book), Resolve(env), Build(env, ids), j);
  }

  /** An order that was sent buys or sells, and a report says which. */
  lemma {:induction false} SentOrdersTrade(env: Env, run: Run, i: nat)
    requires i < |After(env, run).calls| && After(env, run).calls[i].call.Single?
    requires Sent(After(env, run).calls[i].fate)
    ensures After(env, run).calls[i].call.order.side.BUY? || After(env, run).calls[i].call.order.side.SELL?
  {
    hide After, PlaceRefusal, Routable;
    RecordsAreSound(env, run);
    var r := After(env, run).calls[i];
    assert Sound(env, r);
    WhichOrdersAreSent(r.call.order, env.maps.instruments[r.call.order.instrument], env.settings);
  }

  /** Every report buys or sells. */
  lemma ReportsTrade(env: Env, ids: seq<string>, row: OrderRow, instrument: Instrument)
    ensures Build(env, ids)(row, instrument).Ok? ==> !Build(env, ids)(row, instrument).value.side.NO_SIDE?
  {
    hide ClientOrderIdFor, CountedLots, StatusNamed;
  }

  lemma OwnedBySingle(s: State, i: nat)
    requires i < |s.calls| && s.calls[i].call.Single?
    ensures Owns(s.calls, s.calls[i].call.order.id, i, 0)
  {
  }

  /** A row that derives from none of our ids is reported, and reported as nobody's. */
  lemma StrangersStayStrangers(env: Env, rows: seq<Maybe<OrderRow>>, ids: seq<string>, j: nat)
    requires j < |rows| && Resolves(rows[j], Resolve(env))
    requires forall c :: c in ids ==> CorrelationId(env.digest, c) != rows[j].value.correlationId
    requires Collected(rows, Resolve(env), Build(env, ids)).Ok?
    ensures
      var reports, p := Collected(rows, Resolve(env), Build(env, ids)).value, Position(rows, Resolve(env), j);
      p < |reports| && reports[p].clientOrderId == None && Some(reports[p].venueOrderId) == rows[j].value.orderId
  {
    hide CorrelationId, Position, Collected, LotsFor, StatusNamed, InstrumentFor;
    CollectedInOrder(rows, Resolve(env), Build(env, ids), j);
  }
}
