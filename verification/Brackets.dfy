/** Brackets over whole runs: the super order book gives a held one back, leg by leg, under ids of its own. */
module Brackets {
  import opened Providers
  import opened Orders
  import opened SuperOrders
  import opened Execution
  import opened Protocol
  import opened Evidence
  import opened Reconciliation
  import opened Wrappers

  function SuperRows(book: seq<SuperEntry>): (rows: seq<Maybe<SuperRow>>)
    ensures |rows| == |book| && forall j :: 0 <= j < |book| ==> rows[j] == Some(book[j].row)
  {
    seq(|book|, j requires 0 <= j < |book| => Some(book[j].row))
  }

  /** A row of ours is the record of the bracket that was sent, under the id it is held as. */
  predicate IsOurBracket(env: Env, s: State, e: SuperEntry)
    requires e.origin.Some?
  {
    var i := e.origin.value;
    && i < |s.calls| && s.calls[i].call.OrderList? && Sent(s.calls[i].fate) && Routable(env, s.calls[i].call)
    && EchoesSuper(e.row, RequestOf(env, s.calls[i].call))
    && i in s.venue.held && e.row.orderId == Some(s.venue.held[i])
  }

  lemma {:induction false} OurBracketsAreOurs(env: Env, run: Run, j: nat)
    requires j < |After(env, run).venue.superBook| && After(env, run).venue.superBook[j].origin.Some?
    ensures IsOurBracket(env, After(env, run), After(env, run).venue.superBook[j])
  {
    hide Verdict, Routable, Unused, Distinct, Ids, FreshOrderId, Started, Finished, RequestOf, Echoes;
    if run.Then? {
      if j < |After(env, run.before).venue.superBook| {
        OurBracketsAreOurs(env, run.before, j);
        HeldIsDecided(env, run.before, After(env, run).venue.superBook[j].origin.value);
      }
    }
  }

  /** Every bracket the venue holds is a row of its super order book. */
  lemma {:induction false} HeldBracketsAreBooked(env: Env, run: Run, i: nat)
    requires i in After(env, run).venue.held && i < |After(env, run).calls| && After(env, run).calls[i].call.OrderList?
    ensures
      var book := After(env, run).venue.superBook;
      exists j :: 0 <= j < |book| && book[j].origin == Some(i)
  {
    hide Verdict, Routable, Unused, Distinct, Ids, FreshOrderId, Started, Finished, RequestOf, Echoes, EchoesSuper;
    if run.Then? {
      var s, a, after := After(env, run.before), run.action, After(env, run);
      if i in s.venue.held {
        HeldHasCall(env, run.before, i);
        HeldBracketsAreBooked(env, run.before, i);
        var j :| 0 <= j < |s.venue.superBook| && s.venue.superBook[j].origin == Some(i);
        assert after.venue.superBook[j].origin == Some(i);
      } else {
        assert after.venue.superBook[|s.venue.superBook|].origin == Some(i);
      }
    }
  }

  /** No two rows of the super order book share an order id, in any run. */
  lemma {:induction false} SuperIdsDiffer(env: Env, run: Run, j: nat, l: nat)
    requires j < l < |After(env, run).venue.superBook|
    ensures After(env, run).venue.superBook[j].row.orderId != After(env, run).venue.superBook[l].row.orderId
    ensures After(env, run).venue.superBook[j].row.orderId.Some?
  {
    hide Verdict, Routable, Unused, Distinct, Ids, Started, Finished, RequestOf, Echoes;
    if run.Then? && l < |After(env, run.before).venue.superBook| {
      SuperIdsDiffer(env, run.before, j, l);
    } else if run.Then? {
      SuperIdsExist(env, run.before, j);
    }
  }

  lemma {:induction false} SuperIdsExist(env: Env, run: Run, j: nat)
    requires j < |After(env, run).venue.superBook|
    ensures After(env, run).venue.superBook[j].row.orderId.Some?
  {
    hide Verdict, Routable, Unused, Distinct, Ids, Started, Finished, RequestOf, Echoes, FreshOrderId;
    if run.Then? && j < |After(env, run.before).venue.superBook| {
      SuperIdsExist(env, run.before, j);
    }
  }

  /** So the rows of a book the venue keeps are never two of one order. */
  lemma BooksAreOfDifferentOrders(env: Env, run: Run, m: Maps)
    ensures OrdersDiffer(m, SuperRows(After(env, run).venue.superBook))
  {
    hide After, Known;
    var book := After(env, run).venue.superBook;
    forall j, l | 0 <= j < l < |book| ensures IdOf(book[j].row) != IdOf(book[l].row) {
      SuperIdsDiffer(env, run, j, l);
      SuperIdsExist(env, run, l);
    }
  }

  // ----- one row's reports in the book's -----------------------------------

  /** Where row j's reports begin. */
  function Offset(m: Maps, rows: seq<Maybe<SuperRow>>, j: nat): nat
    requires j <= |rows|
  {
    if j == 0 then 0 else |RowPairs(m, rows[0])| + Offset(m, rows[1..], j - 1)
  }

  /** Row j's own reports stand together at its offset. */
  lemma {:induction false} RowStandsAt(m: Maps, rows: seq<Maybe<SuperRow>>, j: nat)
    requires Reports(m, rows).Ok? && j < |rows|
    ensures
      var all, own := Reports(m, rows).value, RowReports(m, rows[j]);
      && own.Ok? && Offset(m, rows, j) + |own.value| <= |all|
      && all[Offset(m, rows, j)..Offset(m, rows, j) + |own.value|] == own.value
    decreases |rows|
  {
    hide RowReports, RowPairs;
    RowReportsAreFor(m, rows[0]);
    var first, rest := RowReports(m, rows[0]).value, Reports(m, rows[1..]).value;
    assert Reports(m, rows).value == first + rest;
    if j > 0 {
      RowStandsAt(m, rows[1..], j - 1);
      var at, n := Offset(m, rows[1..], j - 1), |RowReports(m, rows[j]).value|;
      assert (first + rest)[|first| + at..|first| + at + n] == rest[at..at + n];
    }
  }

  // ----- recovery ----------------------------------------------------------

  /** Report p is of this leg of this order, and no other report shares its id. */
  ghost predicate ReportsLeg(reports: seq<LegReport>, p: nat, orderId: string, leg: Leg)
  {
    && p < |reports| && reports[p].venueOrderId == LegVenueOrderId(orderId, leg)
    && forall q :: 0 <= q < |reports| && q != p ==> reports[q].venueOrderId != reports[p].venueOrderId
  }

  lemma AloneAt(reports: seq<LegReport>, p: nat, orderId: string, leg: Leg)
    requires IdsDiffer(reports) && p < |reports| && reports[p].venueOrderId == LegVenueOrderId(orderId, leg)
    ensures ReportsLeg(reports, p, orderId, leg)
  {
    hide LegVenueOrderId;
    forall q | 0 <= q < |reports| && q != p ensures reports[q].venueOrderId != reports[p].venueOrderId {
      if q < p {
        assert reports[q].venueOrderId != reports[p].venueOrderId;
      } else {
        assert reports[p].venueOrderId != reports[q].venueOrderId;
      }
    }
  }

  /** A row's own reports: its entry first, casting the id it echoes, and a report for each leg it names. */
  lemma OwnReports(m: Maps, row: SuperRow)
    requires Known(m, Some(row)) && RowReports(m, Some(row)).Ok?
    ensures
      var own, legs := RowReports(m, Some(row)).value, RowLegs(row);
      && row.orderId.Some? && |own| == |legs|
      && (forall k :: 0 <= k < |legs| ==> own[k].venueOrderId == LegVenueOrderId(row.orderId.value, legs[k]))
      && EntryReport(row, InstrumentFor(m, row.wire).value) == Ok(own[0])
  {
    hide LegVenueOrderId, LegReports, NamedLegs, InstrumentFor, StatusNamed, CountedLots;
    RowReportsAreFor(m, Some(row));
  }

  /** An echoing row names the entry's own instrument. */
  lemma OurRowIsKnown(env: Env, call: Call, row: SuperRow)
    requires Faithful(env.maps) && Routable(env, call) && EchoesSuper(row, RequestOf(env, call))
    ensures InstrumentFor(env.maps, row.wire) == Some(env.maps.instruments[OrdersOf(call)[0].instrument])
    ensures Known(env.maps, Some(row))
    ensures env.maps.instruments[OrdersOf(call)[0].instrument].id == OrdersOf(call)[0].instrument
  {
    hide NameOnWire, InstrumentFor, CorrelationId, UnitsFor;
  }

  /** A leg the row is reported as stands in the book's reports, alone under its id. */
  lemma LegIsReported(m: Maps, rows: seq<Maybe<SuperRow>>, j: nat, leg: Leg) returns (p: nat)
    requires Reports(m, rows).Ok? && j < |rows| && Known(m, rows[j]) && leg in RowLegs(rows[j].value)
    requires IdsDiffer(Reports(m, rows).value)
    ensures ReportsLeg(Reports(m, rows).value, p, IdOf(rows[j].value), leg)
  {
    hide Reports, RowReports, RowLegs, Offset, IdsDiffer, LegVenueOrderId, Known, EntryReport;
    RowStandsAt(m, rows, j);
    OwnReports(m, rows[j].value);
    var k :| 0 <= k < |RowLegs(rows[j].value)| && RowLegs(rows[j].value)[k] == leg;
    var all, own := Reports(m, rows).value, RowReports(m, rows[j]).value;
    p := Offset(m, rows, j) + k;
    assert all[Offset(m, rows, j)..Offset(m, rows, j) + |own|][k] == all[p];
    AloneAt(all, p, IdOf(rows[j].value), leg);
  }

  /** And its entry stands first of the row's reports. */
  lemma EntryIsReported(m: Maps, rows: seq<Maybe<SuperRow>>, j: nat)
    requires Reports(m, rows).Ok? && j < |rows| && Known(m, rows[j]) && IdsDiffer(Reports(m, rows).value)
    ensures
      var p := Offset(m, rows, j);
      && ReportsLeg(Reports(m, rows).value, p, IdOf(rows[j].value), ENTRY_LEG)
      && EntryReport(rows[j].value, InstrumentFor(m, rows[j].value.wire).value) == Ok(Reports(m, rows).value[p])
  {
    hide Reports, RowReports, NamedLegs, Offset, IdsDiffer, LegVenueOrderId, EntryReport, InstrumentFor;
    RowStandsAt(m, rows, j);
    OwnReports(m, rows[j].value);
    var all, own, p := Reports(m, rows).value, RowReports(m, rows[j]).value, Offset(m, rows, j);
    assert all[p..p + |own|][0] == all[p];
    AloneAt(all, p, IdOf(rows[j].value), ENTRY_LEG);
  }

  /** A row that can be read and echoes the entry's units reports them, on its instrument. */
  lemma EntryIsOurs(env: Env, call: Call, row: SuperRow)
    requires Faithful(env.maps) && Routable(env, call) && EchoesSuper(row, RequestOf(env, call))
    requires EntryReport(row, env.maps.instruments[OrdersOf(call)[0].instrument]).Ok?
    requires CorrelationId(env.digest, OrdersOf(call)[0].id) != ""
    ensures
      var lead := OrdersOf(call)[0];
      var lot := env.maps.instruments[lead.instrument].multiplier;
      var r := EntryReport(row, env.maps.instruments[lead.instrument]).value;
      && r.instrument == lead.instrument && UnitsFor(lot, r.quantity as real) == UnitsFor(lot, lead.quantity)
      && (r.clientOrderId == Some(lead.id) <==> SentAsItself(lead.id) || env.digest(lead.id) == lead.id)
      && (r.side.BUY? <==> lead.side.BUY?) && IsWorded(r.status, row.orderStatus)
  {
    hide CorrelationId, UnitsFor, NameOnWire, InstrumentFor, SentAsItself, Report, StatusNamed, IsWorded, IsOpen;
    var lead := OrdersOf(call)[0];
    var instrument := env.maps.instruments[lead.instrument];
    OurRowIsKnown(env, call, row);
    EntryIdsAreCast(env.digest, lead.id, row, instrument);
    EntryUnits(row, instrument);
    EntriesSayTheirRows(row, instrument);
  }

  lemma EntryUnits(row: SuperRow, instrument: Instrument)
    requires EntryReport(row, instrument).Ok? && row.quantity.Some? && row.quantity.value >= 0
    ensures EntryReport(row, instrument).value.instrument == instrument.id
    ensures UnitsFor(instrument.multiplier, EntryReport(row, instrument).value.quantity as real) == row.quantity.value
  {
    hide StatusNamed, UnitsFor;
    UnitsInvertLots(instrument.multiplier, row.quantity.value);
  }

  /** What the super order book has to be for its reports to be told apart. */
  predicate Readable(m: Maps, rows: seq<Maybe<SuperRow>>)
  {
    Reports(m, rows).Ok? && Tidy(m, rows) && IdsAreColonFree(m, rows)
  }

  /**
   * Brackets come back. After any run, whatever became of the write, a bracket
   * the venue holds is in a successful read of the super order book: its entry
   * under the venue's own id, on its instrument and side, in the status its row
   * words and for its units, under its own client id if and only if that went
   * out as itself; and each leg the venue has given it under that leg's id. No
   * other report of the book is under any of these ids.
   */
  lemma {:induction false} HeldBracketsComeBack(env: Env, run: Run, i: nat) returns (j: nat)
    requires Faithful(env.maps) && Readable(env.maps, SuperRows(After(env, run).venue.superBook))
    requires i in After(env, run).venue.held && i < |After(env, run).calls| && After(env, run).calls[i].call.OrderList?
    requires
      var orders := OrdersOf(After(env, run).calls[i].call);
      orders != [] && CorrelationId(env.digest, orders[0].id) != ""
    ensures j < |After(env, run).venue.superBook| && After(env, run).venue.superBook[j].origin == Some(i)
    ensures
      var s := After(env, run);
      var rows, row, lead := SuperRows(s.venue.superBook), s.venue.superBook[j].row, OrdersOf(s.calls[i].call)[0];
      var reports, p := Reports(env.maps, rows).value, Offset(env.maps, rows, j);
      InCache(env, lead.instrument) &&
      var lot := env.maps.instruments[lead.instrument].multiplier;
      && ReportsLeg(reports, p, s.venue.held[i], ENTRY_LEG)
      && reports[p].instrument == lead.instrument
      && UnitsFor(lot, reports[p].quantity as real) == UnitsFor(lot, lead.quantity)
      && (reports[p].clientOrderId == Some(lead.id) <==> SentAsItself(lead.id) || env.digest(lead.id) == lead.id)
      && (reports[p].side.BUY? <==> lead.side.BUY?) && IsWorded(reports[p].status, row.orderStatus)
      && (forall leg :: leg in NamedLegs(row.legs) ==> exists q: nat :: ReportsLeg(reports, q, s.venue.held[i], leg))
  {
    hide After, Reports, Offset, ReportsLeg, EchoesSuper, RequestOf, Faithful, UnitsFor, NameOnWire, SentAsItself,
         IsWorded, EntryReport, Tidy, IdsDiffer, OrdersDiffer, IdsAreColonFree, NamedLegs, CorrelationId;
    var s := After(env, run);
    var rows := SuperRows(s.venue.superBook);
    HeldBracketsAreBooked(env, run, i);
    j :| 0 <= j < |s.venue.superBook| && s.venue.superBook[j].origin == Some(i);
    OurBracketsAreOurs(env, run, j);
    var row, call := s.venue.superBook[j].row, s.calls[i].call;
    BooksAreOfDifferentOrders(env, run, env.maps);
    ReportIdsAreDistinct(env.maps, rows);
    OurRowIsKnown(env, call, row);
    EntryIsReported(env.maps, rows, j);
    EntryIsOurs(env, call, row);
    forall leg | leg in NamedLegs(row.legs)
      ensures exists q: nat :: ReportsLeg(Reports(env.maps, rows).value, q, s.venue.held[i], leg)
    {
      assert leg in RowLegs(row);
      var q := LegIsReported(env.maps, rows, j, leg);
    }
  }

  /**
   * And the ids agree: with true acknowledgements, a leg the client called
   * accepted is reported under the very id it was accepted under, as soon as
   * the venue names it.
   */
  lemma {:induction false} AcceptedLegsAreReported(env: Env, run: Run, id: string, i: nat, k: nat, v: string)
      returns (j: nat)
    requires Faithful(env.maps) && Readable(env.maps, SuperRows(After(env, run).venue.superBook))
    requires AcknowledgementsAreTrue(env, run) && Owns(After(env, run).calls, id, i, k)
    requires After(env, run).calls[i].call.OrderList? && Accepted(v) in About(After(env, run).client.log, id)
    requires
      var orders := OrdersOf(After(env, run).calls[i].call);
      orders != [] && CorrelationId(env.digest, orders[0].id) != ""
    ensures j < |After(env, run).venue.superBook| && After(env, run).venue.superBook[j].origin == Some(i)
    ensures
      var s := After(env, run);
      var reports := Reports(env.maps, SuperRows(s.venue.superBook)).value;
      && k < 3 && i in s.venue.held && v == LegVenueOrderId(s.venue.held[i], LEGS[k])
      && (LEGS[k] in RowLegs(s.venue.superBook[j].row) ==>
           exists q: nat :: ReportsLeg(reports, q, s.venue.held[i], LEGS[k]))
  {
    hide After, Reports, ReportsLeg, Faithful, Tidy, IdsAreColonFree, NamedLegs, CorrelationId,
         LegVenueOrderId, Offset, UnitsFor, AcknowledgementsAreTrue, About, Ids;
    AcceptedMeansHeld(env, run, id, i, k, v);
    j := HeldBracketsComeBack(env, run, i);
    var s := After(env, run);
    var p := Offset(env.maps, SuperRows(s.venue.superBook), j);
    assert ReportsLeg(Reports(env.maps, SuperRows(s.venue.superBook)).value, p, s.venue.held[i], ENTRY_LEG);
  }
}
