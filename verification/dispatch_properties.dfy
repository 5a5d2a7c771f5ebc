/** What one logical call does, path by path: the exact outcome and event
    log of every branch of the dispatcher, and the bounds they imply. */
module DispatchProperties {
  import opened Results
  import opened Redirection
  import opened ClusterDispatch

  /** The kinds of event the bounds count. */
  datatype Kind = Requests | Refreshes | Primers

  predicate IsKind<Client>(e: Event<Client>, kind: Kind)
  {
    match kind
    case Requests => e.Send?
    case Refreshes => e.Discover?
    case Primers => e.Asking?
  }

  /** The number of events of one kind in a log. */
  function Count<Client>(log: seq<Event<Client>>, kind: Kind): nat
  {
    if |log| == 0 then 0
    else Count(log[..|log| - 1], kind) + (if IsKind(log[|log| - 1], kind) then 1 else 0)
  }

  /** A slot-map lookup that fails ends the call before any node is asked. */
  lemma RoutingFailure<Topo, Client, Reply>(c: Cluster<Topo, Client, Reply>, topo: Topo, firstKey: Option<string>, isReadonly: Option<bool>, call: Call, redirections: int, attempt: nat)
    requires c.getClient(topo, firstKey, isReadonly).Err?
    ensures Dispatch(c, topo, firstKey, isReadonly, call, redirections, attempt)
         == Outcome(Err(c.getClient(topo, firstKey, isReadonly).error), topo, [Route(firstKey, isReadonly)])
  {
  }

  /** A successful first reply is returned as it is, after exactly one request. */
  lemma FirstReplySucceeds<Topo, Client, Reply>(c: Cluster<Topo, Client, Reply>, topo: Topo, firstKey: Option<string>, isReadonly: Option<bool>, call: Call, redirections: int, attempt: nat, client: Client)
    requires c.getClient(topo, firstKey, isReadonly) == Ok(client)
    requires c.reply(attempt, client, call).Ok?
    ensures Dispatch(c, topo, firstKey, isReadonly, call, redirections, attempt)
         == Outcome(c.reply(attempt, client, call), topo, [Route(firstKey, isReadonly), Send(client, call)])
  {
  }

  /** Past the redirection ceiling, and for every error that is neither ASK
      nor MOVED, the node's error reaches the caller unchanged: no refresh,
      no primer, no resend. */
  lemma ErrorRethrown<Topo, Client, Reply>(c: Cluster<Topo, Client, Reply>, topo: Topo, firstKey: Option<string>, isReadonly: Option<bool>, call: Call, redirections: int, attempt: nat, client: Client)
    requires c.getClient(topo, firstKey, isReadonly) == Ok(client)
    requires c.reply(attempt, client, call).Err?
    requires redirections > c.Ceiling() || Classify(c.reply(attempt, client, call).error.message).NotRedirect?
    ensures Dispatch(c, topo, firstKey, isReadonly, call, redirections, attempt)
         == Outcome(c.reply(attempt, client, call), topo, [Route(firstKey, isReadonly), Send(client, call)])
  {
  }

  /** ASK to a node the topology already knows: no refresh, the topology is
      untouched, one ASKING primer, then one resend on that node whose reply
      (error or not) is the call's result. */
  lemma AskKnownTarget<Topo, Client, Reply>(c: Cluster<Topo, Client, Reply>, topo: Topo, firstKey: Option<string>, isReadonly: Option<bool>, call: Call, redirections: int, attempt: nat, client: Client, url: string, node: Client)
    requires c.getClient(topo, firstKey, isReadonly) == Ok(client)
    requires c.reply(attempt, client, call).Err?
    requires redirections <= c.Ceiling()
    requires Classify(c.reply(attempt, client, call).error.message) == Ask(url)
    requires c.getNodeByUrl(topo, url) == Some(node)
    ensures var o := Dispatch(c, topo, firstKey, isReadonly, call, redirections, attempt);
      && o.topo == topo
      && (c.asking(node).Some? ==>
            o == Outcome(Err(c.asking(node).value), topo, [Route(firstKey, isReadonly), Send(client, call), Asking(node)]))
      && (c.asking(node).None? ==>
            o == Outcome(c.reply(attempt + 1, node, call), topo, [Route(firstKey, isReadonly), Send(client, call), Asking(node), Send(node, call)]))
  {
    var err := c.reply(attempt, client, call).error;
    assert HandleCommandError(c, topo, err, client, redirections) == AskNode(c, topo, node, []);
  }

  /** ASK to a node the topology does not know: one refresh seeded by the
      failing client; if the node is still unknown the call fails with
      "Cannot find node <url>", otherwise the known-node path follows on the
      refreshed topology. A failed refresh is the call's error. */
  lemma AskUnknownTarget<Topo, Client, Reply>(c: Cluster<Topo, Client, Reply>, topo: Topo, firstKey: Option<string>, isReadonly: Option<bool>, call: Call, redirections: int, attempt: nat, client: Client, url: string)
    requires c.getClient(topo, firstKey, isReadonly) == Ok(client)
    requires c.reply(attempt, client, call).Err?
    requires redirections <= c.Ceiling()
    requires Classify(c.reply(attempt, client, call).error.message) == Ask(url)
    requires c.getNodeByUrl(topo, url).None?
    ensures var o := Dispatch(c, topo, firstKey, isReadonly, call, redirections, attempt);
      var before := [Route(firstKey, isReadonly), Send(client, call), Discover(client)];
      && (c.discover(topo, client).Err? ==>
            o == Outcome(Err(c.discover(topo, client).error), topo, before))
      && (c.discover(topo, client).Ok? && c.getNodeByUrl(c.discover(topo, client).value, url).None? ==>
            o == Outcome(Err(CannotFindNode(url)), c.discover(topo, client).value, before))
      && (c.discover(topo, client).Ok? && c.getNodeByUrl(c.discover(topo, client).value, url).Some? ==>
            var node := c.getNodeByUrl(c.discover(topo, client).value, url).value;
            o.topo == c.discover(topo, client).value
            && (c.asking(node).Some? ==> o.result == Err(c.asking(node).value) && o.log == before + [Asking(node)])
            && (c.asking(node).None? ==> o.result == c.reply(attempt + 1, node, call) && o.log == before + [Asking(node), Send(node, call)]))
  {
    var err := c.reply(attempt, client, call).error;
    var h := HandleCommandError(c, topo, err, client, redirections);
    var sent := [Route(firstKey, isReadonly), Send(client, call)];
    assert sent + [Discover(client)] == [Route(firstKey, isReadonly), Send(client, call), Discover(client)];
    match c.discover(topo, client)
    case Err(e) =>
      assert h == Handled(Err(e), topo, [Discover(client)]);
    case Ok(refreshed) =>
      match c.getNodeByUrl(refreshed, url)
      case None =>
        assert h == Handled(Err(CannotFindNode(url)), refreshed, [Discover(client)]);
      case Some(node) =>
        assert h == AskNode(c, refreshed, node, [Discover(client)]);
  }

  /** MOVED: one refresh seeded by the failing client, then one resend on
      that SAME client, whose reply (even another redirect) is the call's
      result. A failed refresh is the call's error. */
  lemma MovedResendsOnSameClient<Topo, Client, Reply>(c: Cluster<Topo, Client, Reply>, topo: Topo, firstKey: Option<string>, isReadonly: Option<bool>, call: Call, redirections: int, attempt: nat, client: Client)
    requires c.getClient(topo, firstKey, isReadonly) == Ok(client)
    requires c.reply(attempt, client, call).Err?
    requires redirections <= c.Ceiling()
    requires Classify(c.reply(attempt, client, call).error.message).Moved?
    ensures var o := Dispatch(c, topo, firstKey, isReadonly, call, redirections, attempt);
      var before := [Route(firstKey, isReadonly), Send(client, call), Discover(client)];
      && (c.discover(topo, client).Err? ==>
            o == Outcome(Err(c.discover(topo, client).error), topo, before))
      && (c.discover(topo, client).Ok? ==>
            o == Outcome(c.reply(attempt + 1, client, call), c.discover(topo, client).value, before + [Send(client, call)]))
  {
  }

  /** The bounds every logical call keeps: at most two node requests, at most
      one refresh, at most one primer, a second request only after a refresh
      or a primer, and the topology changes only through a refresh. */
  ghost predicate WithinBounds<Topo, Client, Reply>(o: Outcome<Topo, Client, Reply>, topo: Topo)
  {
    && Count(o.log, Requests) <= 2
    && Count(o.log, Refreshes) <= 1
    && Count(o.log, Primers) <= 1
    && (Count(o.log, Requests) == 2 ==> Count(o.log, Refreshes) + Count(o.log, Primers) >= 1)
    && (Count(o.log, Refreshes) == 0 ==> o.topo == topo)
    && RequestsSeparated(o.log)
  }

  /** Between any two node requests of a log lies a refresh or a primer. */
  ghost predicate RequestsSeparated<Client>(log: seq<Event<Client>>)
  {
    forall i, j :: 0 <= i < j < |log| && log[i].Send? && log[j].Send? ==>
      exists k :: i < k < j && (log[k].Discover? || log[k].Asking?)
  }

  /** A successful call returns exactly the reply to its last node request,
      which is the call's n-th request for n the number of requests logged. */
  ghost predicate ReturnsLastReply<Topo, Client, Reply>(c: Cluster<Topo, Client, Reply>, call: Call, attempt: nat, o: Outcome<Topo, Client, Reply>)
  {
    o.result.Ok? ==>
      && |o.log| >= 1
      && o.log[|o.log| - 1].Send?
      && Count(o.log, Requests) >= 1
      && o.result == c.reply(attempt + Count(o.log, Requests) - 1, o.log[|o.log| - 1].client, call)
  }

  /** Everything the path lemmas establish about every outcome at once. */
  ghost predicate Guarantees<Topo, Client, Reply>(c: Cluster<Topo, Client, Reply>, topo: Topo, call: Call, attempt: nat, o: Outcome<Topo, Client, Reply>)
  {
    WithinBounds(o, topo) && ReturnsLastReply(c, call, attempt, o) && SendsOnly(o.log, call)
  }

  /** Every node request in `log` sends `call`. */
  ghost predicate SendsOnly<Client>(log: seq<Event<Client>>, call: Call)
  {
    forall i :: 0 <= i < |log| && log[i].Send? ==> log[i].call == call
  }

  /** Every logical call stays within the bounds, whatever the collaborators
      answer: in particular the handler's `true` answer, the only way to a
      second full dispatch, never occurs. */
  lemma DispatchBounds<Topo, Client, Reply>(c: Cluster<Topo, Client, Reply>, topo: Topo, firstKey: Option<string>, isReadonly: Option<bool>, call: Call, redirections: int, attempt: nat)
    ensures WithinBounds(Dispatch(c, topo, firstKey, isReadonly, call, redirections, attempt), topo)
  {
    DispatchGuarantees(c, topo, firstKey, isReadonly, call, redirections, attempt);
  }

  /** A successful call returns exactly the reply to its last node request:
      the request made after all the earlier ones of the call, sent to the
      client the log names last. */
  lemma SuccessIsLastReply<Topo, Client, Reply>(c: Cluster<Topo, Client, Reply>, topo: Topo, firstKey: Option<string>, isReadonly: Option<bool>, call: Call, redirections: int, attempt: nat)
    ensures var o := Dispatch(c, topo, firstKey, isReadonly, call, redirections, attempt);
      o.result.Ok? ==>
        && |o.log| >= 1
        && o.log[|o.log| - 1].Send?
        && Count(o.log, Requests) >= 1
        && o.result == c.reply(attempt + Count(o.log, Requests) - 1, o.log[|o.log| - 1].client, call)
  {
    DispatchGuarantees(c, topo, firstKey, isReadonly, call, redirections, attempt);
  }

  /** Every node request of a logical call, first or resend, carries the
      call unchanged. */
  lemma SendsCarryTheCall<Topo, Client, Reply>(c: Cluster<Topo, Client, Reply>, topo: Topo, firstKey: Option<string>, isReadonly: Option<bool>, call: Call, redirections: int, attempt: nat)
    ensures SendsOnly(Dispatch(c, topo, firstKey, isReadonly, call, redirections, attempt).log, call)
  {
    DispatchGuarantees(c, topo, firstKey, isReadonly, call, redirections, attempt);
  }

  /** The facts of a short log of one of the dispatcher's shapes. */
  lemma ShapeFacts<Client>(log: seq<Event<Client>>, call: Call)
    requires 2 <= |log| <= 5
    requires forall m :: 0 <= m < |log| - 1 && m != 1 ==> !log[m].Send?
    requires |log| >= 3 ==> log[2].Discover? || log[2].Asking?
    requires forall m :: 0 <= m < |log| && log[m].Send? ==> log[m].call == call
    ensures SendsOnly(log, call)
    ensures RequestsSeparated(log)
    ensures Count(log, Requests)
         == Indicator(log, 0, Requests) + Indicator(log, 1, Requests) + Indicator(log, 2, Requests)
          + Indicator(log, 3, Requests) + Indicator(log, 4, Requests)
    ensures Count(log, Refreshes)
         == Indicator(log, 0, Refreshes) + Indicator(log, 1, Refreshes) + Indicator(log, 2, Refreshes)
          + Indicator(log, 3, Refreshes) + Indicator(log, 4, Refreshes)
    ensures Count(log, Primers)
         == Indicator(log, 0, Primers) + Indicator(log, 1, Primers) + Indicator(log, 2, Primers)
          + Indicator(log, 3, Primers) + Indicator(log, 4, Primers)
  {
    CountTrace(log);
    OrderedShortLog(log);
  }

  lemma DispatchGuarantees<Topo, Client, Reply>(c: Cluster<Topo, Client, Reply>, topo: Topo, firstKey: Option<string>, isReadonly: Option<bool>, call: Call, redirections: int, attempt: nat)
    ensures Guarantees(c, topo, call, attempt, Dispatch(c, topo, firstKey, isReadonly, call, redirections, attempt))
  {
    match c.getClient(topo, firstKey, isReadonly)
    case Err(e) =>
      RoutingFailure(c, topo, firstKey, isReadonly, call, redirections, attempt);
      CountTrace<Client>([Route(firstKey, isReadonly)]);
      assert RequestsSeparated<Client>([Route(firstKey, isReadonly)]);
    case Ok(client) =>
      match c.reply(attempt, client, call)
      case Ok(v) =>
        FirstReplySucceeds(c, topo, firstKey, isReadonly, call, redirections, attempt, client);
        ShapeFacts([Route(firstKey, isReadonly), Send(client, call)], call);
      case Err(err) =>
        if redirections > c.Ceiling() || Classify(err.message).NotRedirect? {
          ErrorRethrown(c, topo, firstKey, isReadonly, call, redirections, attempt, client);
          ShapeFacts([Route(firstKey, isReadonly), Send(client, call)], call);
        } else if Classify(err.message).Moved? {
          MovedGuarantees(c, topo, firstKey, isReadonly, call, redirections, attempt, client);
        } else {
          var url := Classify(err.message).url;
          match c.getNodeByUrl(topo, url)
          case Some(node) =>
            AskKnownGuarantees(c, topo, firstKey, isReadonly, call, redirections, attempt, client, url, node);
          case None =>
            AskUnknownGuarantees(c, topo, firstKey, isReadonly, call, redirections, attempt, client, url);
        }
  }

  lemma MovedGuarantees<Topo, Client, Reply>(c: Cluster<Topo, Client, Reply>, topo: Topo, firstKey: Option<string>, isReadonly: Option<bool>, call: Call, redirections: int, attempt: nat, client: Client)
    requires c.getClient(topo, firstKey, isReadonly) == Ok(client)
    requires c.reply(attempt, client, call).Err?
    requires redirections <= c.Ceiling()
    requires Classify(c.reply(attempt, client, call).error.message).Moved?
    ensures Guarantees(c, topo, call, attempt, Dispatch(c, topo, firstKey, isReadonly, call, redirections, attempt))
  {
    MovedResendsOnSameClient(c, topo, firstKey, isReadonly, call, redirections, attempt, client);
    var before := [Route(firstKey, isReadonly), Send(client, call), Discover(client)];
    assert before + [Send(client, call)] == [Route(firstKey, isReadonly), Send(client, call), Discover(client), Send(client, call)];
    ShapeFacts(before, call);
    ShapeFacts(before + [Send(client, call)], call);
  }

  lemma AskKnownGuarantees<Topo, Client, Reply>(c: Cluster<Topo, Client, Reply>, topo: Topo, firstKey: Option<string>, isReadonly: Option<bool>, call: Call, redirections: int, attempt: nat, client: Client, url: string, node: Client)
    requires c.getClient(topo, firstKey, isReadonly) == Ok(client)
    requires c.reply(attempt, client, call).Err?
    requires redirections <= c.Ceiling()
    requires Classify(c.reply(attempt, client, call).error.message) == Ask(url)
    requires c.getNodeByUrl(topo, url) == Some(node)
    ensures Guarantees(c, topo, call, attempt, Dispatch(c, topo, firstKey, isReadonly, call, redirections, attempt))
  {
    AskKnownTarget(c, topo, firstKey, isReadonly, call, redirections, attempt, client, url, node);
    ShapeFacts([Route(firstKey, isReadonly), Send(client, call), Asking(node)], call);
    ShapeFacts([Route(firstKey, isReadonly), Send(client, call), Asking(node), Send(node, call)], call);
  }

  lemma AskUnknownGuarantees<Topo, Client, Reply>(c: Cluster<Topo, Client, Reply>, topo: Topo, firstKey: Option<string>, isReadonly: Option<bool>, call: Call, redirections: int, attempt: nat, client: Client, url: string)
    requires c.getClient(topo, firstKey, isReadonly) == Ok(client)
    requires c.reply(attempt, client, call).Err?
    requires redirections <= c.Ceiling()
    requires Classify(c.reply(attempt, client, call).error.message) == Ask(url)
    requires c.getNodeByUrl(topo, url).None?
    ensures Guarantees(c, topo, call, attempt, Dispatch(c, topo, firstKey, isReadonly, call, redirections, attempt))
  {
    AskUnknownTarget(c, topo, firstKey, isReadonly, call, redirections, attempt, client, url);
    var before := [Route(firstKey, isReadonly), Send(client, call), Discover(client)];
    ShapeFacts(before, call);
    match c.discover(topo, client)
    case Err(_) =>
    case Ok(refreshed) =>
      match c.getNodeByUrl(refreshed, url)
      case None =>
      case Some(node) =>
        assert before + [Asking(node)] == [Route(firstKey, isReadonly), Send(client, call), Discover(client), Asking(node)];
        assert before + [Asking(node), Send(node, call)] == [Route(firstKey, isReadonly), Send(client, call), Discover(client), Asking(node), Send(node, call)];
        ShapeFacts(before + [Asking(node)], call);
        ShapeFacts(before + [Asking(node), Send(node, call)], call);
  }

  /** A negative ceiling switches redirect handling off: since every entry
      point starts at zero redirections, the first error, redirect or not,
      reaches the caller after one request. */
  lemma NegativeCeilingRethrows<Topo, Client, Reply>(c: Cluster<Topo, Client, Reply>, topo: Topo, firstKey: Option<string>, isReadonly: Option<bool>, call: Call, client: Client)
    requires c.getClient(topo, firstKey, isReadonly) == Ok(client)
    requires c.reply(0, client, call).Err?
    requires c.Ceiling() < 0
    ensures Dispatch(c, topo, firstKey, isReadonly, call, 0, 0)
         == Outcome(c.reply(0, client, call), topo, [Route(firstKey, isReadonly), Send(client, call)])
  {
    ErrorRethrown(c, topo, firstKey, isReadonly, call, 0, 0, client);
  }

  /** A node that keeps answering MOVED gets exactly two requests: the
      second MOVED is the caller's error, for any ceiling of zero or more. */
  lemma PersistentMovedStopsAfterOneResend<Topo, Client, Reply>(c: Cluster<Topo, Client, Reply>, topo: Topo, firstKey: Option<string>, isReadonly: Option<bool>, call: Call, client: Client, moved: Error)
    requires c.getClient(topo, firstKey, isReadonly) == Ok(client)
    requires forall n, node :: c.reply(n, node, call) == Err(moved)
    requires Classify(moved.message).Moved?
    requires c.discover(topo, client).Ok?
    requires 0 <= c.Ceiling()
    ensures var o := Dispatch(c, topo, firstKey, isReadonly, call, 0, 0);
      o.result == Err(moved) && Count(o.log, Requests) == 2 && Count(o.log, Refreshes) == 1
  {
    assert c.reply(0, client, call) == Err(moved);
    assert c.reply(1, client, call) == Err(moved);
    MovedResendsOnSameClient(c, topo, firstKey, isReadonly, call, 0, 0, client);
    var before := [Route(firstKey, isReadonly), Send(client, call), Discover(client)];
    assert before + [Send(client, call)] == [Route(firstKey, isReadonly), Send(client, call), Discover(client), Send(client, call)];
    CountTrace(before + [Send(client, call)]);
  }

  /** A short log whose requests sit only at position 1 and at the end, with
      a refresh or a primer at position 2 when there is a second request. */
  lemma OrderedShortLog<Client>(log: seq<Event<Client>>)
    requires 2 <= |log| <= 5
    requires forall m :: 0 <= m < |log| - 1 && m != 1 ==> !log[m].Send?
    requires |log| >= 3 ==> log[2].Discover? || log[2].Asking?
    ensures RequestsSeparated(log)
  {
    forall i, j | 0 <= i < j < |log| && log[i].Send? && log[j].Send?
      ensures exists k :: i < k < j && (log[k].Discover? || log[k].Asking?)
    {
      assert i == 1 && j == |log| - 1 && j >= 3;
      assert log[2].Discover? || log[2].Asking?;
    }
  }

  function Indicator<Client>(log: seq<Event<Client>>, i: nat, kind: Kind): nat
  {
    if i < |log| && IsKind(log[i], kind) then 1 else 0
  }

  /** Counting on a short log, position by position. */
  lemma {:induction false} CountShortLog<Client>(log: seq<Event<Client>>, kind: Kind)
    requires |log| <= 5
    ensures Count(log, kind)
         == Indicator(log, 0, kind) + Indicator(log, 1, kind) + Indicator(log, 2, kind)
          + Indicator(log, 3, kind) + Indicator(log, 4, kind)
  {
    if |log| > 0 {
      var front := log[..|log| - 1];
      CountShortLog(front, kind);
      assert forall i: nat :: i < |front| ==> front[i] == log[i];
    }
  }

  /** All three counters of a short log. */
  lemma CountTrace<Client>(log: seq<Event<Client>>)
    requires |log| <= 5
    ensures Count(log, Requests)
         == Indicator(log, 0, Requests) + Indicator(log, 1, Requests) + Indicator(log, 2, Requests)
          + Indicator(log, 3, Requests) + Indicator(log, 4, Requests)
    ensures Count(log, Refreshes)
         == Indicator(log, 0, Refreshes) + Indicator(log, 1, Refreshes) + Indicator(log, 2, Refreshes)
          + Indicator(log, 3, Refreshes) + Indicator(log, 4, Refreshes)
    ensures Count(log, Primers)
         == Indicator(log, 0, Primers) + Indicator(log, 1, Primers) + Indicator(log, 2, Primers)
          + Indicator(log, 3, Primers) + Indicator(log, 4, Primers)
  {
    CountShortLog(log, Requests);
    CountShortLog(log, Refreshes);
    CountShortLog(log, Primers);
  }
}
