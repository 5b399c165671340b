/** What an order's events are evidence of, in every run: the rule at the head of `execution.py`. */
module Evidence {
  import opened Providers
  import opened Orders
  import opened SuperOrders
  import opened Execution
  import opened Protocol
  import opened Wrappers
  import Answers

  // ----- what the venue said -----------------------------------------------

  /** The i-th call was delivered exactly what the venue answered it. */
  predicate AnsweredWith(s: State, i: nat, body: Answers.Json)
  {
    && i < |s.calls| && s.calls[i].fate == Settled(Answers.Answered(body))
    && i in s.venue.verdicts && s.venue.verdicts[i] == body
  }

  predicate Refuses(env: Env, body: Answers.Json, error: Answers.DhanError)
  {
    Answers.Classify(body, env.render) == Answers.Raised(error)
  }

  predicate Acknowledges(env: Env, body: Answers.Json, orderId: string)
  {
    var a := Answers.Classify(body, env.render);
    a.Payload? && OrderIdIn(a.body, env.render) == Some(orderId)
  }

  lemma {:induction false} DeliveriesAreAnswers(env: Env, run: Run, i: nat, body: Answers.Json)
    requires i < |After(env, run).calls| && After(env, run).calls[i].fate == Settled(Answers.Answered(body))
    ensures AnsweredWith(After(env, run), i, body)
  {
    hide Verdict, Routable, FreshOrderId, Echoes, Unused, Distinct, Ids, Started, Finished;
    if run.Then? {
      var s, a := After(env, run.before), run.action;
      if i < |s.calls| && s.calls[i].fate.Settled? {
        DeliveriesAreAnswers(env, run.before, i, body);
      }
    }
  }

  /** What an answer makes the client say about the k-th order. */
  lemma ClosingMeans(env: Env, call: Call, t: Answers.Transport, k: nat)
    requires k < |OrdersOf(call)|
    ensures !t.Answered? ==> At(Closing(env, call, t), k) == []
    ensures t.Answered? ==>
      var a := Answers.Classify(t.body, env.render);
      && (a.Raised? ==> At(Closing(env, call, t), k) == [Rejected(ByAnswer(a.error))])
      && (a.Payload? ==>
        var orderId := OrderIdIn(a.body, env.render);
        At(Closing(env, call, t), k)
          == if orderId.Some? && k < 3 then [Accepted(LegVenueOrderId(orderId.value, LEGS[k]))] else [])
  {
    hide Answers.Classify, OrderIdIn, LegVenueOrderId;
    Answers.AmbiguityIsSilence(t, env.render);
  }

  /** Every script is one of five: silence, a denial, or a submission with at most one answer. */
  predicate IsLifecycle(facts: seq<Fact>)
  {
    || facts == []
    || (|facts| == 1 && (facts[0].Denied? || facts[0].Submitted?))
    || (|facts| == 2 && facts[0].Submitted? && ((facts[1].Rejected? && facts[1].why.ByAnswer?) || facts[1].Accepted?))
  }

  /**
   * The evidence rule, in every run and at every moment of it. Denied: nothing
   * was ever sent. Rejected: the venue's own answer was a refusal, with that
   * error, and the other way round. Accepted: the venue acknowledged the call
   * with the order id the venue id is made of, and the other way round. No
   * answer: nothing but Submitted. At most one request ever goes out, and one
   * goes out exactly for what was called Submitted.
   */
  lemma {:induction false} EvidenceRule(env: Env, run: Run, id: string, i: nat, k: nat)
    requires Owns(After(env, run).calls, id, i, k)
    ensures
      var s := After(env, run);
      var facts, requests := About(s.client.log, id), PostsFor(s.client.posts, id);
      && IsLifecycle(facts)
      && (forall reason :: Denied(reason) in facts ==> requests == [])
      && (forall error :: Rejected(ByAnswer(error)) in facts <==>
            exists body :: AnsweredWith(s, i, body) && Refuses(env, body, error))
      && (forall v :: Accepted(v) in facts <==>
            k < 3 && exists body, orderId ::
              AnsweredWith(s, i, body) && Acknowledges(env, body, orderId) && v == LegVenueOrderId(orderId, LEGS[k]))
      && (s.calls[i].fate.Settled? && !s.calls[i].fate.transport.Answered? ==> facts == [Submitted])
      && |requests| <= 1 && (|requests| == 1 <==> Submitted in facts)
  {
    hide After, Answers.Classify, OrderIdIn, LegVenueOrderId, Closing, About, PostsFor, RequestOf, Routable;
    var s := After(env, run);
    var r := s.calls[i];
    LogIsScript(env, run, id, i, k);
    PostsAreScript(env, run, id, i, k);
    if r.fate.Settled? {
      ClosingMeans(env, r.call, r.fate.transport, k);
      if r.fate.transport.Answered? {
        DeliveriesAreAnswers(env, run, i, r.fate.transport.body);
      }
    }
  }

  /** An object that names an order id and reports no failure is that order's acknowledgement. */
  lemma {:induction false} AcknowledgementsName(
    env: Env, before: seq<(string, Answers.Json)>, orderId: string, after: seq<(string, Answers.Json)>)
    requires Answers.LacksErrors(before + after) && Answers.Lacks(before + after, "status")
    requires Answers.Lacks(after, "orderId")
    ensures Acknowledges(env, Answers.Object(before + [("orderId", Answers.Text(orderId))] + after), orderId)
  {
    hide Answers.Get, Answers.Has, Answers.Classify;
    var field := ("orderId", Answers.Text(orderId));
    var fields := before + [field] + after;
    forall i | 0 <= i < |fields| && i != |before|
      ensures fields[i] in before + after
    {
      assert fields[i] == (before + after)[if i < |before| then i else i - 1];
    }
    forall key | key != "orderId" && Answers.Lacks(before + after, key) ensures Answers.Lacks(fields, key) {
    }
    assert Answers.IsLast(fields, |before|, "orderId", Answers.Text(orderId));
    assert !Answers.SaysUnsuccessful(fields, env.render);
    assert !Answers.SaysText(fields, "status", "success");
    Answers.PayloadsAre(fields, env.render);
    Answers.LastFieldWins(fields, |before|, "orderId", Answers.Text(orderId));
  }

  /**
   * An acknowledged order is accepted under the very id the answer names,
   * whatever stands before and after it; of a bracket, the target and the stop
   * under that id and their own names.
   */
  lemma {:induction false} AcceptedAsAcknowledged(
    env: Env, run: Run, id: string, i: nat, k: nat,
    before: seq<(string, Answers.Json)>, orderId: string, after: seq<(string, Answers.Json)>)
    requires Owns(After(env, run).calls, id, i, k)
    requires
      var body := Answers.Object(before + [("orderId", Answers.Text(orderId))] + after);
      After(env, run).calls[i].fate == Settled(Answers.Answered(body))
    requires Answers.LacksErrors(before + after) && Answers.Lacks(before + after, "status")
    requires Answers.Lacks(after, "orderId")
    ensures About(After(env, run).client.log, id) == [Submitted] +
      if k == 0 then [Accepted(orderId)]
      else if k == 1 then [Accepted(orderId + ":TARGET_LEG")]
      else if k == 2 then [Accepted(orderId + ":STOP_LOSS_LEG")]
      else []
  {
    hide After, About, Answers.Classify, OrderIdIn, Closing, Answers.LacksErrors, Answers.Lacks, LegVenueOrderId;
    LegIdsAre(orderId);
    var r := After(env, run).calls[i];
    LogIsScript(env, run, id, i, k);
    AcknowledgementsName(env, before, orderId, after);
    ClosingMeans(env, r.call, r.fate.transport, k);
  }

  // ----- nothing is taken back ---------------------------------------------

  predicate Extends(later: Run, earlier: Run)
  {
    later == earlier || (later.Then? && Extends(later.before, earlier))
  }

  lemma {:induction false} FatesLast(env: Env, earlier: Run, later: Run, id: string, i: nat, k: nat)
    requires Extends(later, earlier) && Owns(After(env, earlier).calls, id, i, k)
    ensures Owns(After(env, later).calls, id, i, k)
    ensures
      var r := After(env, earlier).calls[i];
      After(env, later).calls[i].call == r.call && (!r.fate.Waiting? ==> After(env, later).calls[i] == r)
  {
    hide Verdict, Routable, FreshOrderId, Started, Finished, Decided, Echoes, Unused, Ids, Distinct;
    if later != earlier {
      FatesLast(env, earlier, later.before, id, i, k);
      OwnersStay(env, later, id, i, k);
    }
  }

  /** Whoever is spoken of or sent for is an order of some call. */
  lemma HasOwner(env: Env, run: Run, id: string)
    requires About(After(env, run).client.log, id) != [] || PostsFor(After(env, run).client.posts, id) != []
    ensures exists i: nat, k: nat :: Owns(After(env, run).calls, id, i, k)
  {
    hide After, About, PostsFor, Owns;
    if forall i: nat, k: nat :: !Owns(After(env, run).calls, id, i, k) {
      StrangersAreSilent(env, run, id);
    }
  }

  /** A denial holds for good: nothing is sent for the order afterwards, and nothing more is said of it. */
  lemma DeniedForGood(env: Env, earlier: Run, later: Run, id: string, reason: Refusal)
    requires Extends(later, earlier) && Denied(reason) in About(After(env, earlier).client.log, id)
    ensures About(After(env, later).client.log, id) == [Denied(reason)]
    ensures PostsFor(After(env, later).client.posts, id) == []
  {
    hide After, About, PostsFor, Owns, RequestOf, Closing, Extends;
    HasOwner(env, earlier, id);
    var i: nat, k: nat :| Owns(After(env, earlier).calls, id, i, k);
    LogIsScript(env, earlier, id, i, k);
    EvidenceRule(env, earlier, id, i, k);
    FatesLast(env, earlier, later, id, i, k);
    LogIsScript(env, later, id, i, k);
    PostsAreScript(env, later, id, i, k);
  }

  // ----- the degrade latch -------------------------------------------------

  lemma DegradedSendsNothing(env: Env, c: Client, call: Call)
    requires WellFormed(call) && c.degraded
    ensures Started(env, c, call).degraded && Started(env, c, call).posts == c.posts
  {
    hide Verdict, RequestOf;
    if Verdict(env, c.degraded, call).Passes? {
      PassingCallsAreRoutable(env, c.degraded, call);
    }
  }

  /**
   * The latch: once set, it is set in every continuation, and no placement of
   * any kind starts again, however many calls were waiting when it was set.
   */
  lemma {:induction false} DegradedForGood(env: Env, earlier: Run, later: Run)
    requires Extends(later, earlier) && After(env, earlier).client.degraded
    ensures After(env, later).client.degraded
    ensures After(env, later).client.posts == After(env, earlier).client.posts
  {
    hide Enabled, Started, Closing, Decided, Degrades;
    if later != earlier {
      DegradedForGood(env, earlier, later.before);
      var s, a := After(env, later.before), later.action;
      if a.Begin? && Enabled(env, s, a) {
        BeginIsWellFormed(env, s, a.call);
        DegradedSendsNothing(env, s.client, a.call);
      }
    }
  }

  lemma BeginIsWellFormed(env: Env, s: State, call: Call)
    requires Enabled(env, s, Begin(call))
    ensures WellFormed(call)
  {
  }

  /** The call was delivered a refusal that speaks of the address, and is not for too many requests. */
  predicate SettledByAddress(env: Env, r: Record)
  {
    r.fate.Settled? && r.fate.transport.Answered? && IsAddressRefusal(env, r.fate.transport.body)
  }

  predicate IsAddressRefusal(env: Env, body: Answers.Json)
  {
    var f := Answers.FailureIn(body, env.render);
    f.Some? && f.value.code != "DH-904" && f.value.errorType != "Rate_Limit"
    && Answers.NamesAnAddress(f.value.reason)
  }

  lemma {:induction false} WhatDegrades(env: Env, t: Answers.Transport)
    ensures Degrades(env, t) <==> t.Answered? && IsAddressRefusal(env, t.body)
  {
    hide Answers.Classify, Answers.FailureIn, Answers.NamesAnAddress;
    Answers.AmbiguityIsSilence(t, env.render);
    if t.Answered? {
      var a, f := Answers.Classify(t.body, env.render), Answers.FailureIn(t.body, env.render);
      if f.Some? {
        Answers.AddressRefusals(t.body, f.value, "", env.render);
      }
      if a.Raised? && a.error.IPNotWhitelisted? {
        Answers.AddressRefusals(t.body, a.error.failure, "", env.render);
      }
    }
  }

  lemma StartingDegradesNothing(env: Env, c: Client, call: Call)
    requires WellFormed(call)
    ensures Started(env, c, call).degraded == c.degraded
  {
    hide Verdict, RequestOf;
  }

  /** The latch is set by an address refusal delivered to some call, and by nothing else. */
  lemma {:induction false} DegradedByAnAddress(env: Env, run: Run)
    ensures
      var s := After(env, run);
      s.client.degraded <==> exists i :: 0 <= i < |s.calls| && SettledByAddress(env, s.calls[i])
  {
    hide Verdict, Routable, Unused, Distinct, Ids, Echoes, FreshOrderId, Decided, Started, Degrades, Closing,
         IsAddressRefusal;
    if run.Then? {
      DegradedByAnAddress(env, run.before);
      var s, a, after := After(env, run.before), run.action, After(env, run);
      if Enabled(env, s, a) {
        if a.Begin? {
          StartingDegradesNothing(env, s.client, a.call);
        }
        if s.client.degraded {
          var i :| 0 <= i < |s.calls| && SettledByAddress(env, s.calls[i]);
          assert after.calls[i] == s.calls[i];
        }
        if a.Deliver? {
          WhatDegrades(env, a.transport);
          if Degrades(env, a.transport) {
            assert SettledByAddress(env, after.calls[a.i]);
          }
        }
      }
    }
  }

  /**
   * In the venue's own words: a call answered with an error message that says
   * "invalid IP" or "not whitelisted", in any casing and under any code or type
   * but the rate limit's, sets the latch.
   */
  lemma {:induction false} WordsDegrade(
    env: Env, run: Run, i: nat, fields: seq<(string, Answers.Json)>, message: string, code: string, errorType: string)
    requires i < |After(env, run).calls|
    requires After(env, run).calls[i].fate == Settled(Answers.Answered(Answers.Object(fields)))
    requires Answers.SaysText(fields, "errorMessage", message)
    requires Answers.SaysText(fields, "errorCode", code) && code != "DH-904"
    requires Answers.SaysText(fields, "errorType", errorType) && errorType != "Rate_Limit"
    requires Answers.Mentions(message, "invalid ip") || Answers.Mentions(message, "not whitelisted")
    ensures After(env, run).client.degraded
  {
    hide After, Answers.SaysText, Answers.FailureInObject;
    DegradedByAnAddress(env, run);
    Answers.RefusalsSay(fields, message, code, errorType, env.render);
    assert SettledByAddress(env, After(env, run).calls[i]);
  }

  // ----- the two switches --------------------------------------------------

  /** Every kind of placement is refused as disabled, before anything else, exactly when a switch is off. */
  lemma BothSwitchesAreNeeded(env: Env, degraded: bool, call: Call)
    requires WellFormed(call)
    ensures Verdict(env, degraded, call) == Check.Refuses(SubmissionDisabled) <==>
      !env.liveOrders || env.variable != Some("1")
  {
    hide SegmentName, Validity, DhanOrderType, SideName;
  }

  /** Without both switches nothing is ever sent, by any path, in any run. */
  lemma {:induction false} NothingIsSentByAccident(env: Env, run: Run)
    requires !env.liveOrders || env.variable != Some("1")
    ensures After(env, run).client.posts == [] && !After(env, run).client.degraded
  {
    hide Enabled, Started, Decided, Closing;
    if run.Then? {
      NothingIsSentByAccident(env, run.before);
      var s, a := After(env, run.before), run.action;
      if Enabled(env, s, a) {
        if a.Begin? {
          BeginIsWellFormed(env, s, a.call);
          SwitchedOffStartsNothing(env, s.client, a.call);
        } else if a.Deliver? {
          SwitchedOffAwaitsNothing(env, run.before, a);
        }
      }
    }
  }

  lemma SwitchedOffStartsNothing(env: Env, c: Client, call: Call)
    requires WellFormed(call) && !MaySubmit(env)
    ensures Started(env, c, call).posts == c.posts && Started(env, c, call).degraded == c.degraded
  {
    hide Verdict, RequestOf;
    if Verdict(env, c.degraded, call).Passes? {
      PassingCallsAreRoutable(env, c.degraded, call);
    }
  }

  lemma SwitchedOffAwaitsNothing(env: Env, run: Run, a: Action)
    requires !MaySubmit(env) && a.Deliver?
    ensures !Enabled(env, After(env, run), a)
  {
    hide After, Verdict, Routable, NameOnWire;
    RecordsAreSound(env, run);
    var s := After(env, run);
    if Enabled(env, s, a) {
      assert Sound(env, s.calls[a.i]);
      PassingCallsAreRoutable(env, false, s.calls[a.i].call);
    }
  }

  // ----- what a venue can be trusted with ----------------------------------

  /** A failure body means the order is not working. */
  ghost predicate FailuresAreDead(env: Env, run: Run)
  {
    run.Then? ==>
      && FailuresAreDead(env, run.before)
      && (run.action.Decide? && run.action.placed.Some? ==> !Answers.IsFailureBody(run.action.body, env.render))
  }

  predicate IsContainer(body: Answers.Json)
  {
    body.Array? || body.Object?
  }

  /** The answer to a placement is an object or an array. */
  ghost predicate AnswersAreContainers(run: Run)
  {
    run.Then? ==> AnswersAreContainers(run.before) && (run.action.Decide? ==> IsContainer(run.action.body))
  }

  /** An acknowledged order id is the id of a placed order. */
  ghost predicate AcknowledgementsAreTrue(env: Env, run: Run)
  {
    run.Then? ==>
      && AcknowledgementsAreTrue(env, run.before)
      && (run.action.Decide? ==>
            forall orderId :: Acknowledges(env, run.action.body, orderId) ==>
              run.action.placed.Some? && run.action.placed.value.orderId == orderId)
  }

  lemma {:induction false} HeldWasNotRefused(env: Env, run: Run, i: nat)
    requires FailuresAreDead(env, run) && i in After(env, run).venue.held
    ensures
      var v := After(env, run).venue;
      i in v.verdicts && !Answers.IsFailureBody(v.verdicts[i], env.render)
  {
    hide Verdict, Routable, Unused, Distinct, Ids, Echoes, FreshOrderId, Started, Finished, Answers.IsFailureBody;
    if run.Then? && i in After(env, run.before).venue.held {
      HeldWasNotRefused(env, run.before, i);
    }
  }

  lemma {:induction false} VerdictsAreContainers(env: Env, run: Run, i: nat)
    requires AnswersAreContainers(run) && i in After(env, run).venue.verdicts
    ensures IsContainer(After(env, run).venue.verdicts[i])
  {
    hide Verdict, Routable, Unused, Distinct, Ids, Echoes, FreshOrderId, Started, Finished, IsContainer;
    if run.Then? && i in After(env, run.before).venue.verdicts {
      VerdictsAreContainers(env, run.before, i);
    }
  }

  lemma {:induction false} AcknowledgedIsHeld(env: Env, run: Run, i: nat, orderId: string)
    requires AcknowledgementsAreTrue(env, run) && i in After(env, run).venue.verdicts
    requires Acknowledges(env, After(env, run).venue.verdicts[i], orderId)
    ensures i in After(env, run).venue.held && After(env, run).venue.held[i] == orderId
  {
    hide Verdict, Routable, Unused, Distinct, Ids, Echoes, FreshOrderId, Started, Finished, Acknowledges;
    if run.Then? && i in After(env, run.before).venue.verdicts {
      AcknowledgedIsHeld(env, run.before, i, orderId);
    }
  }

  /**
   * Exactly when a rejection can be wrong. If failure bodies are honest, an
   * order the venue holds is called rejected if and only if the answer
   * delivered for it was neither an object nor an array.
   */
  lemma RejectedYetHeld(env: Env, run: Run, id: string, i: nat, k: nat, body: Answers.Json)
    requires FailuresAreDead(env, run) && Owns(After(env, run).calls, id, i, k)
    requires i in After(env, run).venue.held && AnsweredWith(After(env, run), i, body)
    ensures (exists error :: Rejected(ByAnswer(error)) in About(After(env, run).client.log, id)) <==> !IsContainer(body)
  {
    hide After, Answers.Classify, Answers.IsFailureBody, FailuresAreDead, About, PostsFor, Owns;
    EvidenceRule(env, run, id, i, k);
    HeldWasNotRefused(env, run, i);
    Answers.BodiesDecide(body, env.render);
    var a := Answers.Classify(body, env.render);
    if a.Raised? {
      assert Refuses(env, body, a.error);
      assert Rejected(ByAnswer(a.error)) in About(After(env, run).client.log, id);
    }
  }

  /** With an honest venue, rejected means dead, at that moment and ever after. */
  lemma {:induction false} RejectedMeansDead(
    env: Env, earlier: Run, later: Run, id: string, error: Answers.DhanError, i: nat, k: nat)
    requires Extends(later, earlier) && FailuresAreDead(env, later) && AnswersAreContainers(later)
    requires Owns(After(env, earlier).calls, id, i, k)
    requires Rejected(ByAnswer(error)) in About(After(env, earlier).client.log, id)
    ensures i !in After(env, later).venue.held
  {
    hide After, Answers.Classify, Answers.IsFailureBody, FailuresAreDead, AnswersAreContainers, About, PostsFor, Ids,
         Extends;
    EvidenceRule(env, earlier, id, i, k);
    var body :| AnsweredWith(After(env, earlier), i, body) && Refuses(env, body, error);
    FatesLast(env, earlier, later, id, i, k);
    DeliveriesAreAnswers(env, later, i, body);
    VerdictsAreContainers(env, later, i);
    Answers.BodiesDecide(body, env.render);
    if i in After(env, later).venue.held {
      HeldWasNotRefused(env, later, i);
    }
  }

  /** With true acknowledgements, accepted means placed, under the id the event carries. */
  lemma AcceptedMeansHeld(env: Env, run: Run, id: string, i: nat, k: nat, v: string)
    requires AcknowledgementsAreTrue(env, run) && Owns(After(env, run).calls, id, i, k)
    requires Accepted(v) in About(After(env, run).client.log, id)
    ensures k < 3 && i in After(env, run).venue.held && v == LegVenueOrderId(After(env, run).venue.held[i], LEGS[k])
  {
    hide After, Answers.Classify, OrderIdIn, AcknowledgementsAreTrue, About, PostsFor, Owns, LegVenueOrderId,
         Acknowledges;
    EvidenceRule(env, run, id, i, k);
    var body, orderId :|
      && AnsweredWith(After(env, run), i, body) && Acknowledges(env, body, orderId)
      && v == LegVenueOrderId(orderId, LEGS[k]);
    AcknowledgedIsHeld(env, run, i, orderId);
  }

  // ----- brackets ----------------------------------------------------------

  /** Told the same thing, up to the venue id each is accepted under. */
  predicate Alike(a: seq<Fact>, b: seq<Fact>)
  {
    |a| == |b| && forall j :: 0 <= j < |a| ==> a[j] == b[j] || (a[j].Accepted? && b[j].Accepted?)
  }

  ghost predicate SharesOneFate(s: State, i: nat)
    requires i < |s.calls|
  {
    var ids := Ids(s.calls[i].call);
    forall k, l :: 0 <= k < |ids| && 0 <= l < |ids| ==> Alike(About(s.client.log, ids[k]), About(s.client.log, ids[l]))
  }

  /**
   * The orders of one list share one fate, in every run, unless the list has
   * more than three orders and is acknowledged: then the first three are
   * accepted and the rest are left submitted when the client raises.
   */
  lemma BracketsShareOneFate(env: Env, run: Run, i: nat)
    requires i < |After(env, run).calls| && After(env, run).calls[i].call.OrderList?
    ensures
      var s := After(env, run);
      SharesOneFate(s, i) <==>
        !(|s.calls[i].call.orders| > 3 &&
          exists body, orderId :: AnsweredWith(s, i, body) && Acknowledges(env, body, orderId))
  {
    hide After, Answers.Classify, OrderIdIn, About, PostsFor, LegVenueOrderId, Closing, Verdict, Routable;
    var s := After(env, run);
    var r := s.calls[i];
    var ids := Ids(r.call);
    RecordsAreSound(env, run);
    assert Sound(env, r);
    forall k | 0 <= k < |ids| ensures About(s.client.log, ids[k]) == Heard(env, r, k) {
      assert Owns(s.calls, ids[k], i, k);
      LogIsScript(env, run, ids[k], i, k);
    }
    if r.fate.Settled? {
      forall k | 0 <= k < |ids| { ClosingMeans(env, r.call, r.fate.transport, k); }
      if r.fate.transport.Answered? {
        DeliveriesAreAnswers(env, run, i, r.fate.transport.body);
        AnsweredFates(env, s, i, r.fate.transport.body);
      }
    }
  }

  lemma AnsweredFates(env: Env, s: State, i: nat, body: Answers.Json)
    requires AnsweredWith(s, i, body)
    requires
      var ids := Ids(s.calls[i].call);
      forall k :: 0 <= k < |ids| ==>
        && About(s.client.log, ids[k]) == Heard(env, s.calls[i], k)
        && var a := Answers.Classify(body, env.render);
           && (a.Raised? ==> Heard(env, s.calls[i], k) == [Submitted, Rejected(ByAnswer(a.error))])
           && (a.Payload? ==>
             var orderId := OrderIdIn(a.body, env.render);
             Heard(env, s.calls[i], k) == [Submitted]
               + if orderId.Some? && k < 3 then [Accepted(LegVenueOrderId(orderId.value, LEGS[k]))] else [])
    ensures SharesOneFate(s, i) <==>
        !(|Ids(s.calls[i].call)| > 3 && exists b, orderId :: AnsweredWith(s, i, b) && Acknowledges(env, b, orderId))
  {
    hide Answers.Classify, OrderIdIn, About, LegVenueOrderId, Heard, Ids;
    var ids := Ids(s.calls[i].call);
    var a := Answers.Classify(body, env.render);
    if |ids| > 3 && a.Payload? && OrderIdIn(a.body, env.render).Some? {
      assert Acknowledges(env, body, OrderIdIn(a.body, env.render).value);
      assert !Alike(About(s.client.log, ids[0]), About(s.client.log, ids[3]));
    }
  }

  lemma {:induction false} HeldIdsDiffer(env: Env, run: Run, i: nat, j: nat)
    requires i in After(env, run).venue.held && j in After(env, run).venue.held && i != j
    ensures After(env, run).venue.held[i] != After(env, run).venue.held[j]
  {
    hide Verdict, Routable, Unused, Distinct, Ids, Echoes, Started, Finished;
    if run.Then? {
      var held := After(env, run.before).venue.held;
      if i in held && j in held {
        HeldIdsDiffer(env, run.before, i, j);
      }
      assert i in held ==> held[i] in held.Values;
      assert j in held ==> held[j] in held.Values;
    }
  }

  /** No two orders of a session are ever accepted under one venue id, legs of brackets included. */
  lemma AcceptedIdsDiffer(env: Env, run: Run, id: string, i: nat, k: nat, id': string, j: nat, l: nat, v: string)
    requires AcknowledgementsAreTrue(env, run)
    requires forall x :: x in After(env, run).venue.held ==> ColonFree(After(env, run).venue.held[x])
    requires Owns(After(env, run).calls, id, i, k) && Accepted(v) in About(After(env, run).client.log, id)
    requires Owns(After(env, run).calls, id', j, l) && Accepted(v) in About(After(env, run).client.log, id')
    ensures id == id' && i == j && k == l
  {
    hide After, About, ColonFree, AcknowledgementsAreTrue, LegVenueOrderId, Ids;
    AcceptedMeansHeld(env, run, id, i, k, v);
    AcceptedMeansHeld(env, run, id', j, l, v);
    var held := After(env, run).venue.held;
    LegIdsAreDistinct(held[i], LEGS[k], held[j], LEGS[l]);
    if i != j {
      HeldIdsDiffer(env, run, i, j);
    }
  }

  // ----- why silence says nothing ------------------------------------------

  function Lost(order: Order): Run
  {
    Then(Then(Nil, Begin(Single(order))), Deliver(0, Answers.Lost))
  }

  function Placed(order: Order, body: Answers.Json, row: OrderRow, t: Answers.Transport): Run
    requires row.orderId.Some?
  {
    Then(Then(Then(Nil, Begin(Single(order))), Decide(0, body, Some(AsOrder(row.orderId.value, row)))), Deliver(0, t))
  }

  lemma FirstStep(env: Env, order: Order)
    requires OrderVerdict(env, false, order).Passes?
    ensures
      var call := Single(order);
      Routable(env, call) && After(env, Then(Nil, Begin(call)))
        == State(Started(env, INITIAL.client, call), [Record(call, Waiting)], INITIAL.venue)
  {
    hide OrderVerdict, RequestOf, NameOnWire;
    PassingCallsAreRoutable(env, false, Single(order));
    assert Enabled(env, INITIAL, Begin(Single(order)));
  }

  lemma PlacedRun(env: Env, order: Order, body: Answers.Json, row: OrderRow, t: Answers.Transport)
    requires OrderVerdict(env, false, order).Passes?
    requires Routable(env, Single(order)) && Echoes(row, RequestOf(env, Single(order)))
    requires t.Answered? ==> t.body == body
    ensures
      var s, call := After(env, Placed(order, body, row, t)), Single(order);
      && s.client == Finished(env, Started(env, INITIAL.client, call), call, t)
      && s.calls == [Record(call, Settled(t))] && s.venue.held == map[0 := row.orderId.value]
      && s.venue.verdicts == map[0 := body] && s.venue.book == [Entry(Some(0), row)]
  {
    hide OrderVerdict, RequestOf, NameOnWire, Started, Finished, Routable, Unused, Distinct;
    FirstStep(env, order);
  }

  /**
   * Why an unanswered write gets no event: the client's state is the same in a
   * run where the order was never placed and in one where it is working.
   */
  lemma SilenceDecidesNothing(env: Env, order: Order, body: Answers.Json, row: OrderRow)
    requires OrderVerdict(env, false, order).Passes?
    requires Routable(env, Single(order)) && Echoes(row, RequestOf(env, Single(order)))
    ensures
      var lost, placed := After(env, Lost(order)), After(env, Placed(order, body, row, Answers.Lost));
      lost.client == placed.client && lost.calls == placed.calls && 0 !in lost.venue.held && 0 in placed.venue.held
  {
    hide OrderVerdict, RequestOf, NameOnWire, Started, Finished, Routable, Echoes;
    FirstStep(env, order);
    PlacedRun(env, order, body, row, Answers.Lost);
  }

  /** The scalar answer the condition above is about does occur: the order is working and called rejected. */
  lemma ScalarAnswersMislead(env: Env, order: Order, row: OrderRow, n: real)
    requires OrderVerdict(env, false, order).Passes?
    requires Routable(env, Single(order)) && Echoes(row, RequestOf(env, Single(order)))
    ensures
      var run := Placed(order, Answers.Number(n), row, Answers.Answered(Answers.Number(n)));
      var s := After(env, run);
      && FailuresAreDead(env, run) && 0 in s.venue.held && Owns(s.calls, order.id, 0, 0)
      && About(s.client.log, order.id) == [Submitted, Rejected(ByAnswer(Answers.TransportError))]
  {
    hide OrderVerdict, RequestOf, NameOnWire, Started, Routable, About;
    var t := Answers.Answered(Answers.Number(n));
    var run := Placed(order, Answers.Number(n), row, t);
    PlacedRun(env, order, Answers.Number(n), row, t);
    LogIsScript(env, run, order.id, 0, 0);
    assert FailuresAreDead(env, run.before.before) && FailuresAreDead(env, run.before);
  }
}
