/** The client object goes through any run exactly as the run's own client does. */
module Refinement {
  import opened Execution
  import opened ExecutionClient
  import opened Protocol
  import Answers

  /** Every action of the run is possible where it happens. */
  ghost predicate Possible(env: Env, run: Run)
  {
    run.Then? ==> Possible(env, run.before) && Enabled(env, After(env, run.before), run.action)
  }

  method Start(client: DhanExecutionClient, call: Call)
    requires WellFormed(call)
    modifies client
    ensures client.Value() == Started(client.env, old(client.Value()), call)
  {
    hide Started;
    match call
    case Single(order) =>
      var sent := client.StartSubmitOrder(order);
    case OrderList(orders, isBracket) =>
      var sent, escaped := client.StartSubmitOrderList(orders, isBracket);
    case Forever(order, productType, second) =>
      var sent, escaped := client.StartForeverOrder(order, productType, second);
  }

  method Finish(client: DhanExecutionClient, call: Call, t: Answers.Transport)
    requires WellFormed(call)
    modifies client
    ensures client.Value() == Finished(client.env, old(client.Value()), call, t)
  {
    hide Finished;
    match call
    case Single(order) =>
      var escaped := client.FinishSubmitOrder(order, t);
    case OrderList(orders, isBracket) =>
      var escaped := client.FinishSubmitOrderList(orders, isBracket, t);
    case Forever(order, productType, second) =>
      var escaped := client.FinishForeverOrder(order, productType, second, t);
  }

  /**
   * Driven through any run, however its calls overlap, a new client ends with
   * the run's own log, requests and latch. So what is proved of every run is
   * proved of the object.
   */
  method Replay(env: Env, run: Run) returns (client: DhanExecutionClient, calls: seq<Call>)
    requires Possible(env, run)
    ensures fresh(client) && client.env == env && client.Value() == After(env, run).client
    ensures |calls| == |After(env, run).calls|
    ensures forall i :: 0 <= i < |calls| ==> calls[i] == After(env, run).calls[i].call
    decreases run
  {
    hide Started, Finished, Verdict, Unused, Distinct, Routable, FreshOrderId;
    match run
    case Nil =>
      client := new DhanExecutionClient(env);
      calls := [];
    case Then(before, action) =>
      client, calls := Replay(env, before);
      RecordsAreSound(env, before);
      match action
      case Begin(call) =>
        Start(client, call);
        calls := calls + [call];
      case Deliver(i, t) =>
        assert Sound(env, After(env, before).calls[i]);
        Finish(client, calls[i], t);
      case Interject(event) =>
        client.log := client.log + [event];
      case Decide(_, _, _) =>
      case Stranger(_) =>
      case Amend(_, _, _, _) =>
      case StrangerSuper(_) =>
      case AmendSuper(_, _, _, _) =>
  }
}
