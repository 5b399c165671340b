/** The single-order report (`generate_order_status_report`), asked for by whichever id the caller has. */
module Lookup {
  import Providers
  import opened Orders
  import opened Execution
  import opened Protocol
  import opened Reconciliation
  import opened SuperOrders
  import opened Wrappers
  import Answers

  /** GET /v2/orders/{order-id}, or GET /v2/orders/external/{correlation-id}. */
  datatype Path = ByOrderId(orderId: string) | ByCorrelation(id: string)

  datatype Answer =
    | NoOrder
    | LetThrough(error: Answers.DhanError)
    | Raises(problem: ReportError)
    | Found(report: OrderReport)

  const NO_SUCH_ORDER: string := "incorrect request for order"

  /** Only a plain refusal in these words is an answer; its code is shared with a dead session. */
  predicate IsNoSuchOrder(error: Answers.DhanError)
  {
    error.DhanApiError? && Answers.Contains(Answers.Lower(error.failure.reason), NO_SUCH_ORDER)
  }

  /** The venue id when there is one, else the client id as it stands, not as it was sent. */
  function PathFor(venueOrderId: Maybe<string>, clientOrderId: Maybe<string>): Maybe<Path>
  {
    if venueOrderId.Some? then Some(ByOrderId(venueOrderId.value))
    else if clientOrderId.Some? then Some(ByCorrelation(clientOrderId.value))
    else None
  }

  /** The id asked by is a candidate before any the cache knows. */
  function Candidates(clientOrderId: Maybe<string>, known: seq<string>): seq<string>
  {
    (if clientOrderId.Some? then [clientOrderId.value] else []) + known
  }

  function AnswerTo(env: Env, clientOrderId: Maybe<string>, reading: Reading, known: seq<string>): Answer
  {
    match reading
    case Failed(error) => if IsNoSuchOrder(error) then NoOrder else LetThrough(error)
    case Rows(rows) =>
      match Collected(rows, Resolve(env), Build(env, Candidates(clientOrderId, known)))
      case Err(problem) => Raises(problem)
      case Ok(reports) => if reports == [] then NoOrder else Found(reports[0])
  }

  /** A read that failed means there is no order exactly when Dhan said so, in whatever casing, as a plain refusal. */
  lemma {:induction false} WhenThereIsNoOrder(
    env: Env, clientOrderId: Maybe<string>, error: Answers.DhanError, known: seq<string>)
    ensures
      var answer := AnswerTo(env, clientOrderId, Failed(error), known);
      && (answer == NoOrder <==>
            error.DhanApiError? && Answers.Mentions(error.failure.reason, "incorrect request for order"))
      && (answer != NoOrder ==> answer == LetThrough(error))
  {
    hide Answers.Mentions, Answers.Contains, Answers.Lower;
    if error.DhanApiError? {
      Answers.AnyCasing(error.failure.reason, "incorrect request for order");
    }
  }

  method GenerateOrderStatusReport(
    env: Env, venueOrderId: Maybe<string>, clientOrderId: Maybe<string>, answers: Path -> Reading, known: seq<string>)
      returns (r: Answer)
    ensures PathFor(venueOrderId, clientOrderId).None? ==> r == NoOrder
    ensures PathFor(venueOrderId, clientOrderId).Some? ==>
      r == AnswerTo(env, clientOrderId, answers(PathFor(venueOrderId, clientOrderId).value), known)
  {
    hide IsNoSuchOrder;
    var reading;
    if venueOrderId.Some? {
      reading := answers(ByOrderId(venueOrderId.value));
    } else if clientOrderId.Some? {
      reading := answers(ByCorrelation(clientOrderId.value));
    } else {
      return NoOrder;
    }
    if reading.Failed? {
      if IsNoSuchOrder(reading.error) {
        return NoOrder;
      }
      return LetThrough(reading.error);
    }
    var reports := RowsToReports(reading.rows, Resolve(env), Build(env, Candidates(clientOrderId, known)));
    if reports.Err? {
      return Raises(reports.error);
    }
    return if reports.value == [] then NoOrder else Found(reports.value[0]);
  }

  /** A row that echoes the id asked by is reported under it, whatever other ids derive the same. */
  lemma {:induction false} AskedIdsComeFirst(env: Env, id: string, row: OrderRow, known: seq<string>)
    requires Resolve(env)(row).Some? && row.correlationId == CorrelationId(env.digest, id) != ""
    ensures
      var answer := AnswerTo(env, Some(id), Rows([Some(row)]), known);
      answer.Raises? || (answer.Found? && answer.report.clientOrderId == Some(id))
  {
    hide AnswerTo, Resolve, CorrelationId, CountedLots, StatusNamed;
    OneRowIsFound(env, row, Some(id), known);
  }

  // ----- what the venue answers --------------------------------------------

  predicate AnswersTo(row: OrderRow, path: Path)
  {
    match path
    case ByOrderId(orderId) => row.orderId == Some(orderId)
    case ByCorrelation(id) => row.correlationId == id
  }

  function Selected(book: seq<Entry>, path: Path): seq<Maybe<OrderRow>>
  {
    if book == [] then []
    else (if AnswersTo(book[0].row, path) then [Some(book[0].row)] else []) + Selected(book[1..], path)
  }

  /** The venue answers each path from its book; that it holds nothing, by an empty array or in words. */
  ghost predicate AnsweredFrom(book: seq<Entry>, answers: Path -> Reading)
  {
    forall path ::
      || answers(path) == Rows(Selected(book, path))
      || (Selected(book, path) == [] && answers(path).Failed? && IsNoSuchOrder(answers(path).error))
  }

  lemma {:induction false} SelectedNone(book: seq<Entry>, path: Path)
    requires forall l :: 0 <= l < |book| ==> !AnswersTo(book[l].row, path)
    ensures Selected(book, path) == []
  {
    hide AnswersTo;
    if book != [] {
      SelectedNone(book[1..], path);
    }
  }

  lemma {:induction false} SelectedOne(book: seq<Entry>, path: Path, j: nat)
    requires j < |book| && forall l :: 0 <= l < |book| ==> (AnswersTo(book[l].row, path) <==> l == j)
    ensures Selected(book, path) == [Some(book[j].row)]
  {
    hide AnswersTo;
    if j == 0 {
      forall l | 0 <= l < |book[1..]| ensures !AnswersTo(book[1..][l].row, path) {
        assert book[1..][l] == book[l + 1];
      }
      SelectedNone(book[1..], path);
    } else {
      forall l | 0 <= l < |book[1..]| ensures AnswersTo(book[1..][l].row, path) <==> l == j - 1 {
        assert book[1..][l] == book[l + 1];
      }
      SelectedOne(book[1..], path, j - 1);
    }
  }

  /** No two rows of the venue's book share an order id, in any run. */
  lemma {:induction false} BookIdsDiffer(env: Env, run: Run, j: nat, l: nat)
    requires j < l < |After(env, run).venue.book|
    ensures After(env, run).venue.book[j].row.orderId != After(env, run).venue.book[l].row.orderId
  {
    hide Verdict, Routable, Unused, Distinct, Ids, Started, Finished, RequestOf, Echoes;
    if run.Then? && l < |After(env, run.before).venue.book| {
      BookIdsDiffer(env, run.before, j, l);
    }
  }

  /** One row that resolves and reads well is found. */
  lemma OneRowIsFound(env: Env, row: OrderRow, clientOrderId: Maybe<string>, known: seq<string>)
    requires Resolve(env)(row).Some?
    ensures
      var r := Build(env, Candidates(clientOrderId, known))(row, Resolve(env)(row).value);
      AnswerTo(env, clientOrderId, Rows([Some(row)]), known) == if r.Ok? then Found(r.value) else Raises(r.error)
  {
    hide Resolve, Build, Chain;
    var rows, resolve, build := [Some(row)], Resolve(env), Build(env, Candidates(clientOrderId, known));
    assert rows[1..] == [] && rows[0] == Some(row);
    assert Collected(rows[1..], resolve, build) == Ok([]);
    var r := build(row, resolve(row).value);
    if r.Ok? {
      ChainChains([r.value], [], Ok([]));
      assert Collected(rows, resolve, build) == Ok([r.value]);
    }
  }

  lemma NoRowIsNoOrder(env: Env, clientOrderId: Maybe<string>, known: seq<string>)
    ensures AnswerTo(env, clientOrderId, Rows([]), known) == NoOrder
  {
  }

  /** The report a lookup gives of an order we placed: under its own id, on its instrument, or no report of a bad row. */
  ghost predicate IsReportOf(env: Env, order: Order, row: OrderRow, answer: Answer)
  {
    InCache(env, order.instrument) &&
    if IsBadOrderRow(row, env.maps.instruments[order.instrument]) then answer.Raises?
    else
      answer.Found? && answer.report.clientOrderId == Some(order.id) && Some(answer.report.venueOrderId) == row.orderId
      && answer.report.instrument == order.instrument
  }

  lemma {:induction false} OurRowIsReported(
    env: Env, order: Order, row: OrderRow, clientOrderId: Maybe<string>, known: seq<string>)
    requires Routable(env, Single(order)) && Echoes(row, RequestOf(env, Single(order))) && Faithful(env.maps)
    requires
      var ids := Candidates(clientOrderId, known);
      Distinguishes(env.digest, set c | c in ids) && order.id in ids
    ensures IsReportOf(env, order, row, AnswerTo(env, clientOrderId, Rows([Some(row)]), known))
  {
    hide AnswerTo, RequestOf, Faithful, Distinguishes, Echoes, Providers.NameOnWire, IsBadOrderRow;
    var ids := Candidates(clientOrderId, known);
    OurRowsReportAsOurs(env, order, row, ids);
    OneRowIsFound(env, row, clientOrderId, known);
    WhenRowsAreBad(env, row, ids);
  }

  /** The answer reports the i-th call's order from its row of the book. */
  ghost predicate ReportsOurRow(env: Env, s: State, i: nat, answer: Answer)
    requires i < |s.calls| && s.calls[i].call.Single?
  {
    exists j: nat :: j < |s.venue.book| && s.venue.book[j].origin == Some(i)
      && IsReportOf(env, s.calls[i].call.order, s.venue.book[j].row, answer)
  }

  /** Asked by its venue id, an order we placed and the venue holds is found and is ours, in every run. */
  lemma {:induction false} VenueIdFindsTheOrder(
    env: Env, run: Run, i: nat, clientOrderId: Maybe<string>, answers: Path -> Reading, known: seq<string>)
    requires Faithful(env.maps) && AnsweredFrom(After(env, run).venue.book, answers)
    requires i in After(env, run).venue.held && i < |After(env, run).calls| && After(env, run).calls[i].call.Single?
    requires
      var ids := Candidates(clientOrderId, known);
      Distinguishes(env.digest, set c | c in ids) && After(env, run).calls[i].call.order.id in ids
    ensures
      var s := After(env, run);
      ReportsOurRow(env, s, i, AnswerTo(env, clientOrderId, answers(ByOrderId(s.venue.held[i])), known))
  {
    hide After, AnswerTo, RequestOf, Faithful, Distinguishes, Echoes, IsReportOf, Candidates, Selected, Routable;
    var s := After(env, run);
    HeldOrdersAreBooked(env, run, i);
    var j: nat :| j < |s.venue.book| && s.venue.book[j].origin == Some(i);
    OurRowsAreOurs(env, run, j);
    var path := ByOrderId(s.venue.held[i]);
    forall l | 0 <= l < |s.venue.book| ensures AnswersTo(s.venue.book[l].row, path) <==> l == j {
      if l < j {
        BookIdsDiffer(env, run, l, j);
      } else if j < l {
        BookIdsDiffer(env, run, j, l);
      }
    }
    SelectedOne(s.venue.book, path, j);
    assert Selected(s.venue.book, path) != [];
    OurRowIsReported(env, s.calls[i].call.order, s.venue.book[j].row, clientOrderId, known);
  }

  /** Nobody else's row carries an order's id, as it stands or as it was sent. */
  predicate Alone(env: Env, s: State, i: nat, id: string)
  {
    forall j :: 0 <= j < |s.venue.book| ==>
      s.venue.book[j].row.correlationId == id || s.venue.book[j].row.correlationId == CorrelationId(env.digest, id) ==>
        s.venue.book[j].origin == Some(i)
  }

  /**
   * Asked by its client id, an order the venue holds is found if and only if
   * that id went out as itself; otherwise the answer is that there is no such
   * order, though the venue is holding it.
   */
  lemma {:induction false} ClientIdFindsTheOrder(
    env: Env, run: Run, i: nat, answers: Path -> Reading, known: seq<string>)
    requires Faithful(env.maps) && AnsweredFrom(After(env, run).venue.book, answers)
    requires i in After(env, run).venue.held && i < |After(env, run).calls| && After(env, run).calls[i].call.Single?
    requires
      var id := After(env, run).calls[i].call.order.id;
      var ids := Candidates(Some(id), known);
      Distinguishes(env.digest, set c | c in ids) && Alone(env, After(env, run), i, id)
    ensures
      var s := After(env, run);
      var order := s.calls[i].call.order;
      var answer := AnswerTo(env, Some(order.id), answers(ByCorrelation(order.id)), known);
      && (answer == NoOrder <==> !SentAsItself(order.id) && env.digest(order.id) != order.id)
      && (answer != NoOrder ==> ReportsOurRow(env, s, i, answer))
  {
    hide After, AnswerTo, Faithful, Distinguishes, Selected, SentAsItself, Providers.NameOnWire, IsBadOrderRow;
    var s := After(env, run);
    var order := s.calls[i].call.order;
    HeldOrdersAreBooked(env, run, i);
    var j: nat :| j < |s.venue.book| && s.venue.book[j].origin == Some(i);
    OurRowsAreOurs(env, run, j);
    var path := ByCorrelation(order.id);
    forall l | 0 <= l < |s.venue.book| && s.venue.book[l].origin == Some(i) ensures l == j {
      if l < j {
        OneRowEach(env, run, l, j);
      } else if j < l {
        OneRowEach(env, run, j, l);
      }
    }
    if CorrelationId(env.digest, order.id) == order.id {
      SelectedOne(s.venue.book, path, j);
      assert Selected(s.venue.book, path) != [];
      OurRowIsReported(env, order, s.venue.book[j].row, Some(order.id), known);
    } else {
      SelectedNone(s.venue.book, path);
      NoRowIsNoOrder(env, Some(order.id), known);
      SilenceIsNoOrder(env, Some(order.id), answers(path), known);
    }
  }

  lemma SilenceIsNoOrder(env: Env, clientOrderId: Maybe<string>, reading: Reading, known: seq<string>)
    requires reading.Failed? ==> IsNoSuchOrder(reading.error)
    ensures reading.Failed? ==> AnswerTo(env, clientOrderId, reading, known) == NoOrder
  {
  }
}
