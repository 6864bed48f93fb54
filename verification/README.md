# HTTP request body command of aria2, modelled in Dafny

aria2's built-in HTTP server receives the body of an XML-RPC request in
`HttpServerBodyCommand`. This command runs under the download engine's
cooperative scheduler. On each turn it does four things in order:

1. It stops if the engine reports that downloads are finished or that a halt was requested.
2. It probes the socket for readability. A declared content length of 0 counts as readable.
3. On progress, it restarts its inactivity timer and asks the transport (`HttpServer`) to
   receive more body. With no progress, it gives up after 30 seconds of inactivity.
4. It routes a complete body on its request path. For `/rpc`, it parses the XML-RPC request,
   runs the method, stages the XML response and queues a response-sending command.
   It ignores every other path.

Every turn either reports "finished" or queues the command again. The constructor asks the
engine to watch the socket for readability, and the destructor withdraws that request.

The model is functional:

- `Domain` holds the data model. A `Turn` records everything observed during one turn:
  engine flags, socket readability, content length, the result of the body read, the request
  path, the outcome of each XML-RPC stage, and the clock in seconds.
- `Effects` records what a turn does: the finished flag, the timer, the staged response, the
  commands queued, the no-wait request, and an exit tag that tells the terminal paths apart.
- `TurnRules` states each promise of a turn as its own predicate. `RulesDetermineEffects`
  shows that, taken together, the predicates fix the effects completely.
- `BodyCommand.Execute` is the step function, and it is proved to satisfy every rule.
- `Schedule.Run` iterates `Execute` over a sequence of turns until one reports finished.
- `Lifecycle` models the engine's read-check table as a multiset and covers construction and
  destruction.
- `Scenarios` runs the model on a few concrete sequences of turns.

The timer's initial value comes from a default constructor in a header that is not part of
this model. It is taken as a given `start` value. `Timer::difference` against the wall clock
is taken as the integer `now - start`.

## Model

| member | source | states |
|---|---|---|
| BodyCommand.Execute | src/HttpServerBodyCommand.cc:80-131 | One turn meets every rule: shutdown precedence, re-enqueue iff not finished, timer reset exactly on progress, the 30-second timeout, the body-read outcomes, and exact-path routing with first-failure reporting. |
| BodyCommand.Dispatch | src/HttpServerBodyCommand.cc:92-99 | The XML-RPC pipeline succeeds iff parse, lookup, execute and serialise all complete, and then yields the serialised payload. Otherwise it reports the first stage that raised. |
| TurnRules.RulesDetermineEffects | src/HttpServerBodyCommand.cc:80-131 | The turn rules leave no freedom: two effect records that satisfy them for the same state and observations are equal. |
| BodyCommand.ExecuteIsTheRules | src/HttpServerBodyCommand.cc:80-131 | An effect record satisfies the rules iff it is what `Execute` returns. |
| BodyCommand.ResponseOnlyWhenServed | src/HttpServerBodyCommand.cc:100-105 | A response is staged, one response command is queued and no-wait is set exactly on a served turn, and such a turn is finished. |
| BodyCommand.UnfinishedMeansWaiting | src/HttpServerBodyCommand.cc:109-120 | A turn reports not finished iff it is waiting for more body or for the socket within the timeout window. |
| BodyCommand.EmptyBodyFastPath | src/HttpServerBodyCommand.cc:86-89 | With content length 0, the body read is attempted and the timer restarts even when the socket is not readable. |
| BodyCommand.TimeoutBoundary | src/HttpServerBodyCommand.cc:113-120 | With no progress, 29 seconds after the timer start the command is re-queued with its timer unchanged. At 30 seconds it finishes with nothing queued or sent. |
| BodyCommand.RoutingIsExactMatch | src/HttpServerBodyCommand.cc:91-108 | A trailing slash, a query string, a different case, the empty path or another path is not routed to XML-RPC. The turn finishes with nothing sent. |
| BodyCommand.RpcBodyIsServed | src/HttpServerBodyCommand.cc:91-105 | A complete `/rpc` body whose pipeline succeeds is staged as "text/xml" with the serialised payload. One response command for the same cuid, transport and socket is queued, and no-wait is set. |
| BodyCommand.ErrorContainment | src/HttpServerBodyCommand.cc:89-129 | A recoverable failure in the body read or in any XML-RPC stage finishes the turn with nothing queued and nothing sent. |
| Schedule.Run | src/HttpServerBodyCommand.cc:109-120 | A run has at most one effect per observed turn and no turn after a finished one. It stops early only on a finished turn, and a turn is finished iff it is not a waiting exit. |
| Schedule.RunChainsTimers | src/HttpServerBodyCommand.cc:86-120 | Each turn of a run executes with the timer that the previous turn left. |
| Schedule.DispatchAtMostOnce | src/HttpServerBodyCommand.cc:89-111 | Over a whole run, a complete body is routed at most once and at most one response is staged. Response commands queued equal responses staged. |
| Schedule.ReenqueueCount | src/HttpServerBodyCommand.cc:109-120 | The command queues itself exactly once per turn that reports not finished. |
| Schedule.StalledRunTimesOut | src/HttpServerBodyCommand.cc:113-120 | While the socket stays silent, the timer keeps its start. Each turn finishes iff at least 30 seconds have passed since that start, and the run ends by the first such turn. |
| Schedule.StalledRunStagesNothing | src/HttpServerBodyCommand.cc:113-120 | A run of silent turns stages no response. |
| Schedule.TricklingBodyNeverTimesOut | src/HttpServerBodyCommand.cc:86-111 | When every turn makes progress without completing the body, the command never finishes and its timer follows the clock. |
| Schedule.ShutdownEndsRun | src/HttpServerBodyCommand.cc:82-84 | A shutdown signal on any turn ends the run on that turn with the shutdown exit. |
| Lifecycle.Construct | src/HttpServerBodyCommand.cc:61-73 | Construction adds exactly one read-check request to the engine's table, the command's own, and changes nothing else. |
| Lifecycle.Destroy | src/HttpServerBodyCommand.cc:75-78 | Destruction removes one occurrence of the command's read-check request and changes nothing else. |
| Lifecycle.ReadCheckBalanced | src/HttpServerBodyCommand.cc:72-77 | After a finished run and destruction, the table is exactly what it was before construction. While the command is still queued, the table holds exactly its one extra request. |
| Lifecycle.EveryExitDeregisters | src/HttpServerBodyCommand.cc:75-131 | Every terminal exit (shutdown, timeout, other path, served, or failure) leaves the count of the command's request as it was before construction. |
| Scenarios.EmptyRpcRequestServedInOneTurn | src/HttpServerBodyCommand.cc:86-105 | A bodiless `/rpc` request is served on its first turn on a socket that is not readable. |
| Scenarios.OtherPathIsDropped | src/HttpServerBodyCommand.cc:106-108 | A complete body to `/download-status` finishes without invoking XML-RPC or sending anything. |
| Scenarios.SilentPeerTimesOutAtThirtySeconds | src/HttpServerBodyCommand.cc:113-120 | With the timer at 0 and the clock ticking from 0 to 31, the command waits 30 turns, times out on the turn at clock 30, and stages nothing. |

## Left out

- The socket probe `isReadable(0)` is a boolean observation. A failure raised by the probe
  itself would be caught by the same handler and finish the turn. That failure is not
  modelled, because `SocketCore` is not part of this model.
- Other calls inside the failure boundary could also raise: `getContentLength`,
  `getRequestPath`, `getBody`, `supportsGZip`, `feedResponse` and `addCommand`.
  Only the body read and the four XML-RPC stages are modelled as raising.
- Exceptions that are not `RecoverableException` escape the handler and reach the
  engine. They are not modelled.
- XML-RPC parsing, the method factory, the method bodies and `toXml` are reduced to one
  ok-or-raised outcome per stage (`RpcOracle`). These are code outside this file. Whether
  an unknown method really raises depends on the method factory, which is not part of
  this model. The request's method name and parameters are not modelled.
- The gzip capability flag is only forwarded to `toXml`, so it is not modelled.
- `HttpServer` internals (body accumulation, content-length bookkeeping) are not modelled.
  `receiveBody` is a three-valued observation. So the empty-body fast path guarantees
  that the read is attempted on the first turn. It does not guarantee that the read
  reports a complete body.
- The scheduler's queue, its read-check machinery and the deletion of unfinished commands
  at engine shutdown are not modelled. A queued command is an entry in `Effects.added`,
  and destruction happens after a finished turn.
- `setStatus(STATUS_ONESHOT_REALTIME)` and the ownership and lifetime of the new
  response command are scheduler concerns. The response command's own constructor is
  not part of this model.
- Logging is not modelled. `Exit` is a tag of the model that names the path a turn took.
  The program logs only the timeout (src/HttpServerBodyCommand.cc:115) and caught failures
  (lines 123-126), with one message for every failure stage.
- Read-check requests are keyed by socket and cuid, not by command instance. The engine
  keys them on the command object. The response command built at line 102 shares the
  cuid and socket, so the table model cannot tell its request from the body command's.
- The wall clock and `Timer` are reduced to integer seconds. The timer's initial value
  is a parameter of `Lifecycle.Construct`.
