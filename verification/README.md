# Cluster command routing and redirect handling, with the JSON.MSET encoder

This project models the routing core of a Redis cluster client and proves
properties of it in Dafny 4.11.

- **First-key extraction** (`#extractFirstKey`). A command or script descriptor locates its routing
  key in one of three ways: not at all, by a numeric index into the *encoded* wire arguments, or by a
  function of the *original* call-site arguments.
- **Redirect handling** (`#handleCommandError`). It rethrows once the redirection count is past
  `maxCommandRedirections ?? 16`. It recognises ASK and MOVED replies by their message prefix and
  parses the ASK target as the text after the last space.
  - On ASK it finds the target node, refreshing the topology once from the failing client if the
    node is unknown. It then primes the node with ASKING.
  - On MOVED it refreshes the topology from the failing client.
- **The per-call state machine** (`sendCommand`, `executeScript`, and `commandsExecutor` as
  encode → extract key → `sendCommand`).
- **The `JSON.MSET` encoder.** It turns (key, path, value) triples into the flat token list
  `JSON.MSET k1 p1 v1 k2 p2 v2 …`. Its `FIRST_KEY_INDEX` is 1.

The slot layer (`getClient`, `getNodeByUrl`, `discover`), the ASKING primer and the nodes' replies
are collaborators of the dispatcher. They are the function fields of `ClusterDispatch.Cluster`, over
an abstract topology type. A node's reply is a scripted oracle indexed by how many node requests
the logical call has already made. Every call returns an `Outcome`. It holds the result or error the
caller sees, the topology afterwards, and the ordered log of events: `Route`, `Send`, `Discover`
and `Asking`.

The dispatcher is modelled as the code is written. Two facts follow:

- The handler answers with a client in both redirect branches and never answers `true`. So the
  `redirections + 1` re-dispatch exists in `ClusterDispatch.Dispatch` but is never taken.
- A MOVED reply leads to one refresh and then one resend on the *same* client. The resend is not
  re-routed through the refreshed slot map.

As a result, every logical call makes at most two node requests, and the outcome and log of every
path are pinned down exactly (the `DispatchProperties` lemmas).

The unused `redirections + 1` branch suggests another intended design. In that design, MOVED
would re-dispatch with the counter incremented and re-route, up to `maxCommandRedirections + 1`
attempts. The code as written does not do this: a persistent MOVED gets exactly two requests
(`DispatchProperties.PersistentMovedStopsAfterOneResend`). This model follows the code.

Every entry point (`sendCommand`, `executeScript`, the commands executor) starts the dispatcher at
zero redirections, and its recursive call with `redirections + 1` is never taken. So the only thing about
`maxCommandRedirections` that matters is its sign. Any value of 0 or more, 0 included, allows the
one redirect described above (`DispatchProperties.PersistentMovedStopsAfterOneResend`). A negative
value switches redirect handling off: the first error, redirect or not, goes straight to the
caller (`DispatchProperties.NegativeCeilingRethrows`).

`JsonMset.ParseArguments` is not in the source. It is a decoder written here as the partner of
`transformArguments`, so that the encoder's exact layout can be stated as a round trip in both
directions.

Files: `results.dfy` (Option/Result), `text.dfy` (`startsWith`, `lastIndexOf`), `key_locator.dfy`,
`redirection.dfy`, `json_mset.dfy`, `cluster_dispatch.dfy` (handler and dispatcher),
`dispatch_properties.dfy` (path-by-path lemmas and bounds), `cluster_client.dfy` (entry points and
MSET routing).

## Model

| member | source | states |
|---|---|---|
| KeyLocator.ExtractFirstKey | lib/cluster.ts:21-29 | No locator gives no key. A numeric locator gives the encoded argument at that index, and no key exactly when the index is out of range (JavaScript `undefined`). A function locator gives the function applied to the original arguments. |
| KeyLocator.ExtractFirstKeyReadsOneSide | lib/cluster.ts:24-28 | A function locator's key does not depend on the encoded arguments. A numeric or absent locator's key does not depend on the original arguments. |
| Text.LastIndexOf | lib/cluster.ts:152 | The result is -1 exactly when the character is absent. Otherwise it is an index holding the character with no later occurrence. |
| Redirection.AskTarget | lib/cluster.ts:152 | The ASK target contains no space and is a suffix of the message. When the message has a space, a space immediately precedes the target. When it has none, the target is the whole message. |
| Redirection.Classify | lib/cluster.ts:151-170 | An ASK result happens exactly when the message starts with `ASK`, and carries the parsed target. A MOVED result happens exactly when it starts with `MOVED`. Anything else is not a redirect. |
| Redirection.AskTargetAfterSpace | lib/cluster.ts:152 | Parsing any text, then a space, then a space-free address gives back exactly that address. |
| Redirection.ClassifyAskMessage | lib/cluster.ts:151-152 | `ASK <slot> <url>` with a space-free url is classified as ASK to exactly that url. |
| Redirection.ClassifyMovedMessage | lib/cluster.ts:165 | `MOVED <slot> <url>` is classified as MOVED. |
| ClusterDispatch.Cluster.Ceiling | lib/cluster.ts:147 | The redirection ceiling is the configured `maxCommandRedirections` when one is set, including 0 or a negative value, and 16 only when none is set. |
| ClusterDispatch.AskNode | lib/cluster.ts:163-164 | Priming a known ASK target logs one ASKING and leaves the topology unchanged. The answer is that node when the primer succeeds, and the primer's error otherwise. |
| ClusterDispatch.HandleCommandError | lib/cluster.ts:146-171 | Past the ceiling, and for any error that is neither ASK nor MOVED, the same error is rethrown with no event and no topology change. Any answer implies the count was within the ceiling. The handler only ever answers a client for a resend, never `true` or `false`. |
| ClusterDispatch.Dispatch | lib/cluster.ts:97-118 | Every call begins by routing with the given key and read-only flag. When the call succeeds, the last logged event is a node request; `DispatchProperties.SuccessIsLastReply` says its reply is the result. |
| DispatchProperties.RoutingFailure | lib/cluster.ts:104 | A failing slot-map lookup is the call's error, with no node request and the topology unchanged. |
| DispatchProperties.FirstReplySucceeds | lib/cluster.ts:106-107 | A successful first reply is the result, after exactly one request and with the topology unchanged. |
| DispatchProperties.ErrorRethrown | lib/cluster.ts:147-170 | Past the ceiling, or for a non-redirect error, the node's error reaches the caller unchanged after exactly one request, with no refresh, primer or resend. |
| DispatchProperties.AskKnownTarget | lib/cluster.ts:151-164 | ASK to a known node: no refresh and the topology unchanged. One ASKING is followed by one resend on that node, whose reply, error or not, is the result. A failing primer is the result instead, with no resend. |
| DispatchProperties.AskUnknownTarget | lib/cluster.ts:153-164 | ASK to an unknown node: exactly one refresh seeded by the failing client. A failed refresh is the error. A node still unknown gives `Cannot find node <url>`. Otherwise the ASKING and resend follow on the refreshed topology. |
| DispatchProperties.MovedResendsOnSameClient | lib/cluster.ts:165-167 | MOVED: exactly one refresh seeded by the failing client, then one resend on that same client. Its reply, even another redirect, is the result, and the topology is the refreshed one. A failed refresh is the error. |
| DispatchProperties.DispatchBounds | lib/cluster.ts:108-116 | Whatever the collaborators answer, a call makes at most two node requests, one refresh and one primer. A second request comes only after a refresh or a primer, and at least one of them lies between any two requests in the log. Without a refresh the topology is unchanged. |
| DispatchProperties.PersistentMovedStopsAfterOneResend | lib/cluster.ts:109-113 | For any ceiling of 0 or more, when the refresh succeeds, a node that keeps answering MOVED gets exactly two requests and one refresh, and the caller sees that MOVED error. |
| DispatchProperties.NegativeCeilingRethrows | lib/cluster.ts:147-148 | With a negative ceiling, a call starting at zero redirections hands the first node error to the caller unchanged, after one request and without refreshing the topology. |
| DispatchProperties.SuccessIsLastReply | lib/cluster.ts:107-113 | A successful call returns exactly the reply to its last node request. That request is the call's n-th, where n is the number of requests logged, and it goes to the client the log names last. |
| DispatchProperties.SendsCarryTheCall | lib/cluster.ts:107-113 | The first request and the resend carry the same unchanged arguments. |
| ClusterClient.SendCommand | lib/cluster.ts:97-118 | `sendCommand` routes by the given key and sends only its wire arguments. It stays within the bounds of `DispatchBounds`. |
| ClusterClient.ExecuteScript | lib/cluster.ts:120-144 | `executeScript` routes by the script's own key locator over the original and encoded arguments. It sends only the script with its wire arguments, within the same bounds. |
| ClusterClient.CommandsExecutor | lib/cluster.ts:31-49 | `commandsExecutor` routes by the key extracted from the command's encoded arguments and sends exactly those arguments, within the same bounds. |
| ClusterClient.MsetRoutesByFirstKey | packages/json/lib/commands/MSET.ts:4-17 | With `FIRST_KEY_INDEX = 1`, the routing key of `JSON.MSET` is the first triple's key. With no triple it is no key. |
| ClusterClient.MsetDispatch | lib/cluster.ts:36-44 | Executing `JSON.MSET` looks up the slot of the first triple's key and sends exactly the encoder's tokens. |
| JsonMset.TransformArguments | packages/json/lib/commands/MSET.ts:12-20 | The token list has length 1 + 3·n and starts with `JSON.MSET`. For each i, positions 1+3i, 2+3i and 3+3i hold key i, path i and the serialised value i, in input order. |
| JsonMset.ParseTransformArguments | packages/json/lib/commands/MSET.ts:12-20 | Decoding the encoder's output gives back every key and path unchanged and every value as its serialisation, in order. |
| JsonMset.TransformParsedArguments | packages/json/lib/commands/MSET.ts:12-20 | Every token list the decoder accepts is exactly what the encoder produces for the decoded triples. |
| JsonMset.ParseTriplesAccepts | packages/json/lib/commands/MSET.ts:15-17 | The tokens after the command name decode exactly when their number is a multiple of three. |
| JsonMset.KeysAndPathsPassThrough | packages/json/lib/commands/MSET.ts:16 | Only values go through the serialiser: encoding with it equals encoding, verbatim, the triples whose values are already serialised. |

## Left out

- The slot layer (`RedisClusterSlots`: `getClient`, `getNodeByUrl`, `discover`, the slot table, replica selection, the CRC16 hash slot). `cluster-slots.ts` is not part of this model. These operations are uninterpreted function fields of `Cluster`. A failing `getClient` is modelled as an error that escapes unhandled, because line 104 lies outside the `try`.
- `connect`, `getMasters`, `getSlotMaster` and `disconnect`: each is a one-line delegation to that slot layer.
- Promises and real node connections (`client.sendCommand`, `client.executeScript`, `node.client.asking`). They are a scripted oracle of Ok/Err replies, indexed by the number of requests already made in the call.
- The per-call `options` argument: it is passed through unchanged and does not affect routing.
- `create`, `commandOptions`, `extendWithModulesAndScripts` and `extendWithDefaultCommands`: runtime class-extension plumbing over code that is not part of this model.
- `transformCommandArguments`, `transformReply` and `redisArgs.preserve`: the encoder is the `transformArguments` field of `ClusterClient.Command`. Reply decoding is not modelled, and `#scriptsExecutor` is represented by `ExecuteScript`.
- `transformRedisJsonArgument` (JSON serialisation): this is the uninterpreted `toJson` parameter of the MSET encoder.
- Concurrency and coalescing of simultaneous refreshes: the dispatcher's code does neither.
- JavaScript number semantics: `FIRST_KEY_INDEX`, `redirections` and `maxCommandRedirections` are integers. Fractional or NaN values are not modelled.
- Thrown values that are not `Error` objects (no `message`): every error is modelled as a message string.
- The `.spec.ts` files of MREVRANGE, FUNCTION_LIST, count-min-sketch MERGE and XGROUP CREATECONSUMER. They test encoders whose code is not part of this model, or need a live server.
