/** The public entry points of the cluster client over the dispatcher:
    `sendCommand`, `executeScript` and `commandsExecutor`, the composition
    of argument encoding, first-key extraction and `sendCommand`. */
module ClusterClient {
  import opened Results
  import opened KeyLocator
  import opened ClusterDispatch
  import opened DispatchProperties
  import JsonMset

  /** A command family: where its key is, whether it only reads, and its
      argument encoder over the call-site arguments `Args`. */
  datatype Command<!Args> = Command(
    firstKeyIndex: FirstKeyIndex<Args>,
    isReadOnly: Option<bool>,
    transformArguments: Args -> seq<string>)

  /** A Lua script descriptor: its identity as sent to the node, where its key
      is, and whether it only reads. */
  datatype Script<!Args> = Script(sha1: string, firstKeyIndex: FirstKeyIndex<Args>, isReadOnly: Option<bool>)

  /** `sendCommand`: routes by the given key, and sends the wire arguments at
      most twice, each time unchanged. */
  function SendCommand<Topo, Client, Reply>(c: Cluster<Topo, Client, Reply>, topo: Topo, firstKey: Option<string>, isReadonly: Option<bool>, args: seq<string>, redirections: int): (o: Outcome<Topo, Client, Reply>)
    ensures |o.log| >= 1 && o.log[0] == Route(firstKey, isReadonly)
    ensures SendsOnly(o.log, SendArgs(args))
    ensures WithinBounds(o, topo)
  {
    DispatchBounds(c, topo, firstKey, isReadonly, SendArgs(args), redirections, 0);
    SendsCarryTheCall(c, topo, firstKey, isReadonly, SendArgs(args), redirections, 0);
    Dispatch(c, topo, firstKey, isReadonly, SendArgs(args), redirections, 0)
  }

  /** `executeScript`: the same state machine, routed by the SCRIPT's key
      locator over the original and the wire arguments. */
  function ExecuteScript<Args, Topo, Client, Reply>(c: Cluster<Topo, Client, Reply>, topo: Topo, script: Script<Args>, originalArgs: Args, redisArgs: seq<string>, redirections: int): (o: Outcome<Topo, Client, Reply>)
    ensures |o.log| >= 1
    ensures o.log[0] == Route(ExtractFirstKey(script.firstKeyIndex, originalArgs, redisArgs), script.isReadOnly)
    ensures SendsOnly(o.log, RunScript(script.sha1, redisArgs))
    ensures WithinBounds(o, topo)
  {
    var firstKey := ExtractFirstKey(script.firstKeyIndex, originalArgs, redisArgs);
    var call := RunScript(script.sha1, redisArgs);
    DispatchBounds(c, topo, firstKey, script.isReadOnly, call, redirections, 0);
    SendsCarryTheCall(c, topo, firstKey, script.isReadOnly, call, redirections, 0);
    Dispatch(c, topo, firstKey, script.isReadOnly, call, redirections, 0)
  }

  /** `commandsExecutor`: encode the call-site arguments, extract the first
      key, and send with no redirection counted yet. */
  function CommandsExecutor<Args, Topo, Client, Reply>(c: Cluster<Topo, Client, Reply>, topo: Topo, command: Command<Args>, args: Args): (o: Outcome<Topo, Client, Reply>)
    ensures |o.log| >= 1
    ensures o.log[0] == Route(ExtractFirstKey(command.firstKeyIndex, args, command.transformArguments(args)), command.isReadOnly)
    ensures SendsOnly(o.log, SendArgs(command.transformArguments(args)))
    ensures WithinBounds(o, topo)
  {
    var redisArgs := command.transformArguments(args);
    SendCommand(c, topo, ExtractFirstKey(command.firstKeyIndex, args, redisArgs), command.isReadOnly, redisArgs, 0)
  }

  /** The `JSON.MSET` command family: key at wire index 1, no read-only flag. */
  function MsetCommand<J>(toJson: J -> string): Command<seq<JsonMset.KeyPathValue<J>>>
  {
    Command(Index(JsonMset.FIRST_KEY_INDEX), None, keyPathValues => JsonMset.TransformArguments(toJson, keyPathValues))
  }

  /** `JSON.MSET` is routed by its first triple's key, and by no key at all
      when there is no triple (index 1 is then past the end). */
  lemma MsetRoutesByFirstKey<J>(toJson: J -> string, keyPathValues: seq<JsonMset.KeyPathValue<J>>)
    ensures ExtractFirstKey(Index(JsonMset.FIRST_KEY_INDEX), keyPathValues, JsonMset.TransformArguments(toJson, keyPathValues))
         == if |keyPathValues| > 0 then Some(keyPathValues[0].key) else None
  {
    if |keyPathValues| > 0 {
      assert JsonMset.TransformArguments(toJson, keyPathValues)[1 + 3 * 0] == keyPathValues[0].key;
    }
  }

  /** End to end: executing `JSON.MSET` first looks up the slot of the first
      triple's key, and sends exactly the encoder's tokens. */
  lemma MsetDispatch<J, Topo, Client, Reply>(c: Cluster<Topo, Client, Reply>, topo: Topo, toJson: J -> string, keyPathValues: seq<JsonMset.KeyPathValue<J>>)
    ensures var o := CommandsExecutor(c, topo, MsetCommand(toJson), keyPathValues);
      && o.log[0] == Route(if |keyPathValues| > 0 then Some(keyPathValues[0].key) else None, None)
      && SendsOnly(o.log, SendArgs(JsonMset.TransformArguments(toJson, keyPathValues)))
  {
    MsetRoutesByFirstKey(toJson, keyPathValues);
  }
}
