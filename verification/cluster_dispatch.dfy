/** The cluster dispatcher: route one logical call to a node, and react to the
    node's ASK and MOVED redirect errors. The slot map behind `getClient`,
    `getNodeByUrl` and `discover`, the ASKING primer and the nodes' replies are
    collaborators the dispatcher only calls; they are the function fields of
    `Cluster`, over an abstract topology `Topo` and node connections `Client`. */
module ClusterDispatch {
  import opened Results
  import opened Redirection

  /** The ceiling used when `maxCommandRedirections` is not configured. */
  const DEFAULT_MAX_COMMAND_REDIRECTIONS: int := 16

  /** An exception, identified by its message. */
  datatype Error = Error(message: string)

  /** What is sent to a node: plain wire arguments, or a script with its
      wire arguments. */
  datatype Call = SendArgs(args: seq<string>) | RunScript(script: string, args: seq<string>)

  /** The visible effects of one logical call, in order: a slot-map lookup,
      a request to a node with what was sent, a topology refresh seeded by a node, an ASKING primer. */
  datatype Event<Client> =
    | Route(firstKey: Option<string>, isReadonly: Option<bool>)
    | Send(client: Client, call: Call)
    | Discover(seed: Client)
    | Asking(node: Client)

  /** The collaborators of the dispatcher, and its one option.
      `reply(n, client, call)` is the reply to the n-th node request of the
      logical call (counting from 0); `asking(node)` is the failure of the
      ASKING primer, if any. */
  datatype Cluster<!Topo, !Client, Reply> = Cluster(
    maxCommandRedirections: Option<int>,
    getClient: (Topo, Option<string>, Option<bool>) -> Result<Client, Error>,
    getNodeByUrl: (Topo, string) -> Option<Client>,
    discover: (Topo, Client) -> Result<Topo, Error>,
    asking: Client -> Option<Error>,
    reply: (nat, Client, Call) -> Result<Reply, Error>)
  {
    /** `maxCommandRedirections ?? 16`. */
    function Ceiling(): (n: int)
      ensures maxCommandRedirections.None? ==> n == DEFAULT_MAX_COMMAND_REDIRECTIONS
      ensures maxCommandRedirections.Some? ==> n == maxCommandRedirections.value
    {
      maxCommandRedirections.GetOr(DEFAULT_MAX_COMMAND_REDIRECTIONS)
    }
  }

  /** The handler's `boolean | client` answer: `true` asks for a full
      re-dispatch, `false` for rethrowing, a client for one resend on it. */
  datatype Decision<Client> = RetryDispatch | GiveUp | ResendOn(client: Client)

  /** The handler's answer (or the error it throws), the topology after it,
      and what it did. */
  datatype Handled<Topo, Client> = Handled(decision: Result<Decision<Client>, Error>, topo: Topo, log: seq<Event<Client>>)

  /** The outcome of a logical call: the reply or the error the caller sees,
      the topology afterwards, and everything the call did. */
  datatype Outcome<Topo, Client, Reply> = Outcome(result: Result<Reply, Error>, topo: Topo, log: seq<Event<Client>>)

  /** The text of the error raised when an ASK target stays unknown. */
  function CannotFindNode(url: string): Error
  {
    Error("Cannot find node " + url)
  }

  /** Completes an ASK redirect once its target node is known: prime it with
      ASKING, then resend on it. */
  function AskNode<Topo, Client, Reply>(c: Cluster<Topo, Client, Reply>, topo: Topo, node: Client, before: seq<Event<Client>>): (h: Handled<Topo, Client>)
    ensures h.topo == topo
    ensures h.log == before + [Asking(node)]
    ensures h.decision.Ok? <==> c.asking(node).None?
    ensures h.decision.Ok? ==> h.decision.value == ResendOn(node)
    ensures h.decision.Err? ==> h.decision.error == c.asking(node).value
  {
    match c.asking(node)
    case Some(e) => Handled(Err(e), topo, before + [Asking(node)])
    case None => Handled(Ok(ResendOn(node)), topo, before + [Asking(node)])
  }

  /** `#handleCommandError`: rethrow past the ceiling; on ASK, find the target
      node (refreshing the topology once from the failing client if it is
      unknown), prime it and name it for the resend; on MOVED, refresh the
      topology from the failing client and name that same client for the
      resend; rethrow anything else. */
  function HandleCommandError<Topo, Client, Reply>(c: Cluster<Topo, Client, Reply>, topo: Topo, err: Error, client: Client, redirections: int): (h: Handled<Topo, Client>)
    ensures redirections > c.Ceiling() ==> h == Handled(Err(err), topo, [])
    ensures Classify(err.message).NotRedirect? ==> h == Handled(Err(err), topo, [])
    ensures h.decision.Ok? ==> redirections <= c.Ceiling()
    ensures h.decision.Ok? ==> h.decision.value.ResendOn?
  {
    if redirections > c.Ceiling() then Handled(Err(err), topo, [])
    else
      match Classify(err.message)
      case Ask(url) =>
        (match c.getNodeByUrl(topo, url)
         case Some(node) => AskNode(c, topo, node, [])
         case None =>
           match c.discover(topo, client)
           case Err(e) => Handled(Err(e), topo, [Discover(client)])
           case Ok(refreshed) =>
             match c.getNodeByUrl(refreshed, url)
             case None => Handled(Err(CannotFindNode(url)), refreshed, [Discover(client)])
             case Some(node) => AskNode(c, refreshed, node, [Discover(client)]))
      case Moved =>
        (match c.discover(topo, client)
         case Err(e) => Handled(Err(e), topo, [Discover(client)])
         case Ok(refreshed) => Handled(Ok(ResendOn(client)), refreshed, [Discover(client)]))
      case NotRedirect => Handled(Err(err), topo, [])
  }

  /** The shared body of `sendCommand` and `executeScript`: route, send, and
      on an error act on the handler's answer. `attempt` counts the node
      requests already made by this logical call. */
  function Dispatch<Topo, Client, Reply>(c: Cluster<Topo, Client, Reply>, topo: Topo, firstKey: Option<string>, isReadonly: Option<bool>, call: Call, redirections: int, attempt: nat): (o: Outcome<Topo, Client, Reply>)
    ensures |o.log| >= 1 && o.log[0] == Route(firstKey, isReadonly)
    ensures o.result.Ok? ==> o.log[|o.log| - 1].Send?
    decreases if redirections <= c.Ceiling() then c.Ceiling() - redirections + 1 else 0
  {
    match c.getClient(topo, firstKey, isReadonly)
    case Err(e) => Outcome(Err(e), topo, [Route(firstKey, isReadonly)])
    case Ok(client) =>
      var sent := [Route(firstKey, isReadonly), Send(client, call)];
      match c.reply(attempt, client, call)
      case Ok(v) => Outcome(Ok(v), topo, sent)
      case Err(err) =>
        var h := HandleCommandError(c, topo, err, client, redirections);
        match h.decision
        case Err(e) => Outcome(Err(e), h.topo, sent + h.log)
        case Ok(RetryDispatch) =>
          var again := Dispatch(c, h.topo, firstKey, isReadonly, call, redirections + 1, attempt + 1);
          Outcome(again.result, again.topo, sent + h.log + again.log)
        case Ok(ResendOn(node)) =>
          Outcome(c.reply(attempt + 1, node, call), h.topo, sent + h.log + [Send(node, call)])
        case Ok(GiveUp) => Outcome(Err(err), h.topo, sent + h.log)
  }
}
