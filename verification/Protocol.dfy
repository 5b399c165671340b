/**
 * Whole runs of the order path. Any number of placements are in flight at once;
 * the venue decides each one when it likes, or never; the transport can lose a
 * request, lose or garble a reply, or deliver it; other people trade on the
 * same account; and the client's other coroutines speak in between.
 */
module Protocol {
  import opened Providers
  import opened Orders
  import opened SuperOrders
  import opened Execution
  import opened Wrappers
  import Answers

  // ----- the state of a run ------------------------------------------------

  /** Where one call has got to. */
  datatype Fate =
    | Refused(reason: Refusal)
    | Escaped
    | Waiting
    | Settled(transport: Answers.Transport)

  datatype Record = Record(call: Call, fate: Fate)

  /** A row of the venue's order book, and the call that placed it: None for a stranger's. */
  datatype Entry = Entry(origin: Maybe<nat>, row: OrderRow)

  /** And one of its super order book, which is another. */
  datatype SuperEntry = SuperEntry(origin: Maybe<nat>, row: SuperRow)

  /** What a placed call becomes at the venue, under an order id of the venue's own. */
  datatype Placement =
    | AsOrder(orderId: string, row: OrderRow)
    | AsSuper(orderId: string, superRow: SuperRow)
    | AsForever(orderId: string)

  /** Ground truth: what was answered to each call, which were placed and as what, and the two books. */
  datatype Venue = Venue(
    verdicts: map<nat, Answers.Json>, held: map<nat, string>, book: seq<Entry>, superBook: seq<SuperEntry>)

  datatype State = State(client: Client, calls: seq<Record>, venue: Venue)

  const INITIAL: State := State(Client(false, [], []), [], Venue(map[], map[], [], []))

  datatype Action =
    | Begin(call: Call)
    | Decide(i: nat, body: Answers.Json, placed: Maybe<Placement>)
    | Deliver(i: nat, transport: Answers.Transport)
    | Stranger(row: OrderRow)
    | Amend(j: nat, orderStatus: string, filledQty: Maybe<int>, errorDescription: string)
    | StrangerSuper(superRow: SuperRow)
    | AmendSuper(j: nat, orderStatus: string, filledQty: Maybe<int>, legs: seq<Maybe<LegRow>>)
    | Interject(event: Event)

  predicate Sent(fate: Fate)
  {
    fate.Waiting? || fate.Settled?
  }

  predicate Distinct(ids: seq<string>)
  {
    forall k, l :: 0 <= k < l < |ids| ==> ids[k] != ids[l]
  }

  /** `id` is the k-th order of the i-th call. */
  predicate Owns(calls: seq<Record>, id: string, i: nat, k: nat)
  {
    i < |calls| && k < |Ids(calls[i].call)| && Ids(calls[i].call)[k] == id
  }

  ghost predicate Unused(calls: seq<Record>, ids: seq<string>)
  {
    forall i: nat, k: nat, id :: Owns(calls, id, i, k) ==> id !in ids
  }

  predicate IsCall(calls: seq<Record>, i: nat)
  {
    i < |calls|
  }

  /** The venue records what it was sent. */
  predicate Echoes(row: OrderRow, request: Request)
  {
    row.orderId.Some?
    && row.correlationId == request.correlationId && row.wire == request.wire
    && row.transactionType == request.side && row.quantity == Some(request.units)
  }

  predicate EchoesSuper(row: SuperRow, request: Request)
  {
    row.orderId.Some?
    && row.correlationId == request.correlationId && row.wire == request.wire
    && row.transactionType == request.side && row.quantity == Some(request.units)
  }

  /** An order is placed in the book of its endpoint, and a bracket as one row with the legs the venue gives it. */
  predicate Records(p: Placement, call: Call, request: Request)
  {
    match p
    case AsOrder(orderId, row) => call.Single? && row.orderId == Some(orderId) && Echoes(row, request)
    case AsSuper(orderId, row) => call.OrderList? && row.orderId == Some(orderId) && EchoesSuper(row, request)
    case AsForever(_) => call.Forever?
  }

  /** Order ids are issued once, over both books. */
  predicate FreshOrderId(venue: Venue, orderId: string)
  {
    && orderId !in venue.held.Values
    && (forall j :: 0 <= j < |venue.book| ==> venue.book[j].row.orderId != Some(orderId))
    && (forall j :: 0 <= j < |venue.superBook| ==> venue.superBook[j].row.orderId != Some(orderId))
  }

  ghost predicate Enabled(env: Env, s: State, a: Action)
  {
    match a
    case Begin(call) => WellFormed(call) && Distinct(Ids(call)) && Unused(s.calls, Ids(call))
    case Decide(i, body, placed) =>
      && IsCall(s.calls, i) && Sent(s.calls[i].fate) && i !in s.venue.verdicts && Routable(env, s.calls[i].call)
      && (placed.Some? ==>
        Records(placed.value, s.calls[i].call, RequestOf(env, s.calls[i].call))
        && FreshOrderId(s.venue, placed.value.orderId))
    case Deliver(i, t) =>
      && IsCall(s.calls, i) && s.calls[i].fate.Waiting?
      && (t.Answered? ==> i in s.venue.verdicts && s.venue.verdicts[i] == t.body)
    case Stranger(row) => row.orderId.Some? && FreshOrderId(s.venue, row.orderId.value)
    case Amend(j, _, _, _) => j < |s.venue.book|
    case StrangerSuper(row) => row.orderId.Some? && FreshOrderId(s.venue, row.orderId.value)
    case AmendSuper(j, _, _, _) => j < |s.venue.superBook|
    case Interject(event) => !event.path.SubmitPath?
  }

  function FateOf(check: Check): Fate
  {
    match check case Passes => Waiting case Refuses(reason) => Refused(reason) case Escapes => Escaped
  }

  function Decided(s: State, i: nat, body: Answers.Json, placed: Maybe<Placement>): Venue
  {
    var v := s.venue;
    Venue(v.verdicts[i := body],
          if placed.Some? then v.held[i := placed.value.orderId] else v.held,
          if placed.Some? && placed.value.AsOrder? then v.book + [Entry(Some(i), placed.value.row)] else v.book,
          if placed.Some? && placed.value.AsSuper? then v.superBook + [SuperEntry(Some(i), placed.value.superRow)]
          else v.superBook)
  }

  function Begun(env: Env, s: State, call: Call): State
    requires WellFormed(call)
  {
    s.(client := Started(env, s.client, call),
       calls := s.calls + [Record(call, FateOf(Verdict(env, s.client.degraded, call)))])
  }

  function Delivered(env: Env, s: State, i: nat, t: Answers.Transport): State
    requires IsCall(s.calls, i)
  {
    s.(client := Finished(env, s.client, s.calls[i].call, t),
       calls := s.calls[i := Record(s.calls[i].call, Settled(t))])
  }

  function Amended(e: Entry, orderStatus: string, filledQty: Maybe<int>, errorDescription: string): Entry
  {
    e.(row := e.row.(orderStatus := orderStatus, filledQty := filledQty, errorDescription := errorDescription))
  }

  function WithBook(s: State, book: seq<Entry>): State
  {
    s.(venue := s.venue.(book := book))
  }

  function SuperAmended(
    e: SuperEntry, orderStatus: string, filledQty: Maybe<int>, legs: seq<Maybe<LegRow>>): SuperEntry
  {
    e.(row := e.row.(orderStatus := orderStatus, filledQty := filledQty, legs := legs))
  }

  function WithSuperBook(s: State, superBook: seq<SuperEntry>): State
  {
    s.(venue := s.venue.(superBook := superBook))
  }

  /** What an action does; one that is not possible does nothing. */
  ghost function Next(env: Env, s: State, a: Action): State
  {
    if !Enabled(env, s, a) then s
    else
      match a
      case Begin(call) => Begun(env, s, call)
      case Decide(i, body, placed) => s.(venue := Decided(s, i, body, placed))
      case Deliver(i, t) => Delivered(env, s, i, t)
      case Stranger(row) => WithBook(s, s.venue.book + [Entry(None, row)])
      case Amend(j, orderStatus, filledQty, errorDescription) =>
        WithBook(s, s.venue.book[j := Amended(s.venue.book[j], orderStatus, filledQty, errorDescription)])
      case StrangerSuper(row) => WithSuperBook(s, s.venue.superBook + [SuperEntry(None, row)])
      case AmendSuper(j, orderStatus, filledQty, legs) =>
        WithSuperBook(s, s.venue.superBook[j := SuperAmended(s.venue.superBook[j], orderStatus, filledQty, legs)])
      case Interject(event) => s.(client := s.client.(log := s.client.log + [event]))
  }

  /** Any interleaving at all. */
  datatype Run = Nil | Then(before: Run, action: Action)

  ghost function After(env: Env, run: Run): State
  {
    match run
    case Nil => INITIAL
    case Then(before, action) => Next(env, After(env, before), action)
  }

  // ----- what was said and sent about one order ----------------------------

  /** The submit path's facts about one order, in order. */
  function About(log: seq<Event>, id: string): (facts: seq<Fact>)
  {
    if log == [] then []
    else
      var n := |log| - 1;
      About(log[..n], id) + (if log[n].path.SubmitPath? && log[n].id == id then [log[n].fact] else [])
  }

  /** The requests that went out for one order. */
  function PostsFor(posts: seq<Post>, id: string): (requests: seq<Request>)
  {
    if posts == [] then []
    else
      var n := |posts| - 1;
      PostsFor(posts[..n], id) + (if id in posts[n].ids then [posts[n].request] else [])
  }

  lemma AboutOne(log: seq<Event>, event: Event, id: string)
    ensures About(log + [event], id)
      == About(log, id) + (if event.path.SubmitPath? && event.id == id then [event.fact] else [])
  {
    assert (log + [event])[..|log|] == log;
  }

  lemma {:induction false} AboutStrangers(log: seq<Event>, ids: seq<string>, facts: seq<Fact>, id: string)
    requires |facts| <= |ids| && id !in ids
    ensures About(log + Block(SubmitPath, ids, facts), id) == About(log, id)
    decreases |facts|
  {
    hide About;
    if facts == [] {
      assert log + Block(SubmitPath, ids, facts) == log;
    } else {
      var n := |facts| - 1;
      AboutStrangers(log, ids, facts[..n], id);
      var event := Event(SubmitPath, ids[n], facts[n]);
      assert log + Block(SubmitPath, ids, facts) == (log + Block(SubmitPath, ids, facts[..n])) + [event];
      AboutOne(log + Block(SubmitPath, ids, facts[..n]), event, id);
    }
  }

  function At(facts: seq<Fact>, k: nat): seq<Fact>
  {
    if k < |facts| then [facts[k]] else []
  }

  /** A block tells the k-th order the k-th fact and nothing more. */
  lemma {:induction false} AboutOwn(log: seq<Event>, ids: seq<string>, facts: seq<Fact>, k: nat)
    requires |facts| <= |ids| && k < |ids| && Distinct(ids)
    ensures About(log + Block(SubmitPath, ids, facts), ids[k]) == About(log, ids[k]) + At(facts, k)
    decreases |facts|
  {
    hide About;
    if facts == [] {
      assert log + Block(SubmitPath, ids, facts) == log;
    } else {
      var n := |facts| - 1;
      AboutOwn(log, ids, facts[..n], k);
      var event := Event(SubmitPath, ids[n], facts[n]);
      assert log + Block(SubmitPath, ids, facts) == (log + Block(SubmitPath, ids, facts[..n])) + [event];
      AboutOne(log + Block(SubmitPath, ids, facts[..n]), event, ids[k]);
      assert ids[n] == ids[k] <==> n == k;
    }
  }

  lemma PostsOne(posts: seq<Post>, post: Post, id: string)
    ensures PostsFor(posts + [post], id) == PostsFor(posts, id) + (if id in post.ids then [post.request] else [])
  {
    assert (posts + [post])[..|posts|] == posts;
  }

  // ----- invariants of every run -------------------------------------------

  /** A record is what the checks made of its call. */
  predicate Sound(env: Env, r: Record)
  {
    && WellFormed(r.call) && Distinct(Ids(r.call))
    && (Sent(r.fate) ==> Verdict(env, false, r.call).Passes? && Routable(env, r.call))
    && (r.fate.Refused? ==>
      Verdict(env, false, r.call) == Refuses(r.fate.reason) || Verdict(env, true, r.call) == Refuses(r.fate.reason))
    && (r.fate.Escaped? ==> Verdict(env, false, r.call).Escapes? || Verdict(env, true, r.call).Escapes?)
  }

  lemma OpeningIsSound(env: Env, degraded: bool, call: Call)
    requires WellFormed(call) && Distinct(Ids(call))
    ensures Sound(env, Record(call, FateOf(Verdict(env, degraded, call))))
  {
    hide Verdict, NameOnWire;
    if Verdict(env, degraded, call).Passes? {
      PassingCallsAreRoutable(env, degraded, call);
    }
  }

  lemma {:induction false} RecordsAreSound(env: Env, run: Run)
    ensures forall i :: 0 <= i < |After(env, run).calls| ==> Sound(env, After(env, run).calls[i])
  {
    hide Verdict, Routable, Unused, FreshOrderId, Started, Finished, Decided, Distinct;
    if run.Then? {
      RecordsAreSound(env, run.before);
      var s := After(env, run.before);
      if run.action.Begin? && Enabled(env, s, run.action) {
        OpeningIsSound(env, s.client.degraded, run.action.call);
      }
    }
  }

  lemma {:induction false} IdsAreUsedOnce(env: Env, run: Run, id: string, i: nat, k: nat, j: nat, l: nat)
    requires Owns(After(env, run).calls, id, i, k) && Owns(After(env, run).calls, id, j, l)
    ensures i == j && k == l
  {
    hide Verdict, Routable, FreshOrderId, Started, Finished, Decided, Echoes;
    if run.Then? {
      var s := After(env, run.before);
      assert i < |s.calls| ==> Owns(s.calls, id, i, k);
      assert j < |s.calls| ==> Owns(s.calls, id, j, l);
      if i < |s.calls| && j < |s.calls| {
        IdsAreUsedOnce(env, run.before, id, i, k, j, l);
      }
    }
  }

  /** What is said about an order no call carries: nothing. */
  lemma {:induction false} StrangersAreSilent(env: Env, run: Run, id: string)
    requires forall i: nat, k: nat :: !Owns(After(env, run).calls, id, i, k)
    ensures About(After(env, run).client.log, id) == [] && PostsFor(After(env, run).client.posts, id) == []
  {
    hide Verdict, Routable, FreshOrderId, Decided, Echoes, About, PostsFor, Unused, Closing, RequestOf;
    if run.Nil? {
      NothingYet(id);
    } else {
      var s, a := After(env, run.before), run.action;
      forall i: nat, k: nat ensures !Owns(s.calls, id, i, k) {
        if Owns(s.calls, id, i, k) {
          OwnersStay(env, run, id, i, k);
        }
      }
      StrangersAreSilent(env, run.before, id);
      if Enabled(env, s, a) {
        if a.Begin? {
          NotAmong(env, run, id);
          StartedElsewhere(env, s.client, a.call, id);
        } else if a.Deliver? {
          forall k | 0 <= k < |Ids(s.calls[a.i].call)| ensures Ids(s.calls[a.i].call)[k] != id {
            assert !Owns(s.calls, id, a.i, k);
          }
          AboutStrangers(s.client.log, Ids(s.calls[a.i].call), Closing(env, s.calls[a.i].call, a.transport), id);
        } else if a.Interject? {
          AboutOne(s.client.log, a.event, id);
        }
      }
    }
  }

  lemma NothingYet(id: string)
    ensures About([], id) == [] && PostsFor([], id) == []
  {
  }

  /** A call keeps its place and its orders whatever happens next. */
  lemma OwnersStay(env: Env, run: Run, id: string, i: nat, k: nat)
    requires run.Then? && Owns(After(env, run.before).calls, id, i, k)
    ensures Owns(After(env, run).calls, id, i, k)
    ensures After(env, run).calls[i].call == After(env, run.before).calls[i].call
  {
    hide Verdict, Routable, FreshOrderId, Started, Finished, Decided, Echoes, Unused, Ids;
  }

  lemma NotAmong(env: Env, run: Run, id: string)
    requires run.Then? && run.action.Begin? && Enabled(env, After(env, run.before), run.action)
    requires forall i: nat, k: nat :: !Owns(After(env, run).calls, id, i, k)
    ensures id !in Ids(run.action.call)
  {
    hide Verdict, Started, Unused, Distinct;
    var calls, i := After(env, run).calls, |After(env, run.before).calls|;
    forall k | 0 <= k < |Ids(run.action.call)| ensures Ids(run.action.call)[k] != id {
      assert !Owns(calls, id, i, k);
    }
  }

  lemma StartedElsewhere(env: Env, c: Client, call: Call, id: string)
    requires WellFormed(call) && id !in Ids(call)
    ensures About(Started(env, c, call).log, id) == About(c.log, id)
    ensures PostsFor(Started(env, c, call).posts, id) == PostsFor(c.posts, id)
  {
    hide Verdict, About, PostsFor, RequestOf, Ids, NameOnWire;
    var v, n := Verdict(env, c.degraded, call), |Ids(call)|;
    match v
    case Refuses(reason) => AboutStrangers(c.log, Ids(call), Repeat(Denied(reason), n), id);
    case Escapes =>
    case Passes =>
      PassingCallsAreRoutable(env, c.degraded, call);
      AboutStrangers(c.log, Ids(call), Repeat(Submitted, n), id);
      PostsOne(c.posts, Post(Ids(call), RequestOf(env, call)), id);
  }

  // ----- the script of a call ----------------------------------------------

  /** What the k-th order of a call has been told, as a function of how far the call has got. */
  function Heard(env: Env, r: Record, k: nat): (facts: seq<Fact>)
  {
    match r.fate
    case Refused(reason) => [Denied(reason)]
    case Escaped => []
    case Waiting => [Submitted]
    case Settled(t) => [Submitted] + At(Closing(env, r.call, t), k)
  }

  lemma FirstWords(env: Env, c: Client, call: Call, k: nat)
    requires WellFormed(call) && Distinct(Ids(call)) && k < |Ids(call)|
    ensures About(Started(env, c, call).log, Ids(call)[k])
      == About(c.log, Ids(call)[k]) + Heard(env, Record(call, FateOf(Verdict(env, c.degraded, call))), k)
    ensures !Verdict(env, c.degraded, call).Passes? ==> Started(env, c, call).posts == c.posts
    ensures Verdict(env, c.degraded, call).Passes? ==>
      && Routable(env, call)
      && PostsFor(Started(env, c, call).posts, Ids(call)[k]) == PostsFor(c.posts, Ids(call)[k]) + [RequestOf(env, call)]
  {
    hide Verdict, About, PostsFor, RequestOf, Ids, NameOnWire, Distinct;
    var v, n := Verdict(env, c.degraded, call), |Ids(call)|;
    match v
    case Refuses(reason) => AboutOwn(c.log, Ids(call), Repeat(Denied(reason), n), k);
    case Escapes =>
    case Passes =>
      PassingCallsAreRoutable(env, c.degraded, call);
      AboutOwn(c.log, Ids(call), Repeat(Submitted, n), k);
      PostsOne(c.posts, Post(Ids(call), RequestOf(env, call)), Ids(call)[k]);
  }

  lemma NewIdsAreNew(env: Env, s: State, call: Call, k: nat)
    requires Enabled(env, s, Begin(call)) && k < |Ids(call)|
    ensures forall i: nat, l: nat :: !Owns(s.calls, Ids(call)[k], i, l)
  {
    hide Distinct, Ids;
  }

  lemma OldIdsAreOld(env: Env, s: State, call: Call, id: string, i: nat, k: nat)
    requires Enabled(env, s, Begin(call)) && Owns(s.calls, id, i, k)
    ensures id !in Ids(call)
  {
    hide Distinct, Ids;
  }

  /**
   * The heart of the evidence rule: in every run, what the client has said
   * about an order is exactly the script of the one call that carries it.
   */
  lemma {:induction false} LogIsScript(env: Env, run: Run, id: string, i: nat, k: nat)
    requires Owns(After(env, run).calls, id, i, k)
    ensures About(After(env, run).client.log, id) == Heard(env, After(env, run).calls[i], k)
    decreases run, 1
  {
    hide Verdict, Routable, FreshOrderId, Decided, Echoes, About, Unused, Closing, RequestOf, Distinct, Ids, Started;
    if run.Then? {
      var s, a := After(env, run.before), run.action;
      RecordsAreSound(env, run.before);
      if !Enabled(env, s, a) {
        LogIsScript(env, run.before, id, i, k);
      } else if a.Begin? {
        LogAfterBegin(env, run, id, i, k);
      } else if a.Deliver? {
        LogAfterDeliver(env, run, id, i, k);
      } else {
        assert Owns(s.calls, id, i, k);
        LogIsScript(env, run.before, id, i, k);
        if a.Interject? {
          AboutOne(s.client.log, a.event, id);
        }
      }
    }
  }

  lemma {:induction false} LogAfterBegin(env: Env, run: Run, id: string, i: nat, k: nat)
    requires run.Then? && run.action.Begin? && Enabled(env, After(env, run.before), run.action)
    requires Owns(After(env, run).calls, id, i, k)
    ensures About(After(env, run).client.log, id) == Heard(env, After(env, run).calls[i], k)
    decreases run, 0
  {
    hide Verdict, About, PostsFor, Distinct, Ids, Started, Heard, Unused;
    var s, call := After(env, run.before), run.action.call;
    if i < |s.calls| {
      assert Owns(s.calls, id, i, k);
      LogIsScript(env, run.before, id, i, k);
      OldIdsAreOld(env, s, call, id, i, k);
      StartedElsewhere(env, s.client, call, id);
    } else {
      NewIdsAreNew(env, s, call, k);
      StrangersAreSilent(env, run.before, id);
      FirstWords(env, s.client, call, k);
    }
  }

  lemma {:induction false} LogAfterDeliver(env: Env, run: Run, id: string, i: nat, k: nat)
    requires run.Then? && run.action.Deliver? && Enabled(env, After(env, run.before), run.action)
    requires Owns(After(env, run).calls, id, i, k)
    ensures About(After(env, run).client.log, id) == Heard(env, After(env, run).calls[i], k)
    decreases run, 0
  {
    hide Verdict, About, PostsFor, Distinct, Ids, Closing, Sent, Routable;
    var s, j, t := After(env, run.before), run.action.i, run.action.transport;
    var call := s.calls[j].call;
    assert Owns(s.calls, id, i, k);
    LogIsScript(env, run.before, id, i, k);
    RecordsAreSound(env, run.before);
    assert Sound(env, s.calls[j]);
    if i == j {
      AboutOwn(s.client.log, Ids(call), Closing(env, call, t), k);
    } else {
      forall l | 0 <= l < |Ids(call)| ensures Ids(call)[l] != id {
        if Owns(s.calls, id, j, l) {
          IdsAreUsedOnce(env, run.before, id, i, k, j, l);
        }
      }
      AboutStrangers(s.client.log, Ids(call), Closing(env, call, t), id);
    }
  }

  /** A request went out for an order exactly when its call passed, and then exactly one. */
  lemma {:induction false} PostsAreScript(env: Env, run: Run, id: string, i: nat, k: nat)
    requires Owns(After(env, run).calls, id, i, k)
    ensures
      var s := After(env, run);
      && (!Sent(s.calls[i].fate) ==> PostsFor(s.client.posts, id) == [])
      && (Sent(s.calls[i].fate) ==>
        Routable(env, s.calls[i].call) && PostsFor(s.client.posts, id) == [RequestOf(env, s.calls[i].call)])
  {
    hide Verdict, FreshOrderId, Decided, Echoes, PostsFor, Unused, Closing, RequestOf, Distinct, Ids, Started, NameOnWire;
    if run.Then? {
      var s, a := After(env, run.before), run.action;
      RecordsAreSound(env, run);
      RecordsAreSound(env, run.before);
      if i < |s.calls| {
        assert Owns(s.calls, id, i, k);
        PostsAreScript(env, run.before, id, i, k);
        if a.Begin? && Enabled(env, s, a) {
          OldIdsAreOld(env, s, a.call, id, i, k);
          StartedElsewhere(env, s.client, a.call, id);
        }
      } else {
        NewIdsAreNew(env, s, a.call, k);
        StrangersAreSilent(env, run.before, id);
        FirstWords(env, s.client, a.call, k);
      }
    }
  }
}
