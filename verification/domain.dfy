/** Observations, state and effects of one turn of the HTTP request body command.

    Every collaborator of the command (engine flags, socket, HTTP transport,
    XML-RPC layer, wall clock) is reduced to a value observed during the turn,
    and everything the command does to the engine and the transport is recorded
    in an `Effects` value instead of being performed. */
module Domain {
  import opened Results

  /** The command's correlation id (cuid). */
  type CommandId = nat
  /** Identity of the shared socket handle. */
  type SocketId = nat
  /** Identity of the shared HTTP transport (the HttpServer object). */
  type ServerId = nat

  /** The only request path routed to the XML-RPC layer. */
  const RpcPath: string := "/rpc"
  /** Content type under which a serialised XML-RPC response is staged. */
  const ResponseContentType: string := "text/xml"
  /** Inactivity limit, in seconds of the engine's wall clock. */
  const BodyTimeoutSeconds: int := 30

  /** What one attempt to read more of the body reports. */
  datatype ReceiveOutcome =
    | BodyComplete       // the declared content length has been consumed
    | BodyIncomplete     // more bytes are still expected
    | ReceiveRaised      // a recoverable exception escaped the attempt

  /** The steps inside the failure boundary of a turn, in the order they run. */
  datatype Stage =
    | ReceiveBody
    | ParseRequest
    | LookupMethod
    | ExecuteMethod
    | SerialiseResponse

  /** Position of a stage in the order the turn runs them. */
  function StageOrder(s: Stage): nat
  {
    match s
    case ReceiveBody => 0
    case ParseRequest => 1
    case LookupMethod => 2
    case ExecuteMethod => 3
    case SerialiseResponse => 4
  }

  /** Outcomes of the XML-RPC steps as they would be observed if they ran:
      whether parsing, method lookup and execution complete without a
      recoverable exception, and the serialised payload (None when
      serialisation raises). */
  datatype RpcOracle = RpcOracle(
    parsed: bool,
    methodFound: bool,
    executed: bool,
    serialised: Option<string>)

  /** Whether the given XML-RPC stage completes under the oracle. */
  predicate StageSucceeds(o: RpcOracle, s: Stage)
  {
    match s
    case ReceiveBody => true
    case ParseRequest => o.parsed
    case LookupMethod => o.methodFound
    case ExecuteMethod => o.executed
    case SerialiseResponse => o.serialised.Some?
  }

  /** Every XML-RPC stage completes. */
  predicate AllRpcStagesSucceed(o: RpcOracle)
  {
    o.parsed && o.methodFound && o.executed && o.serialised.Some?
  }

  /** `s` is the XML-RPC stage whose exception ends the pipeline: it fails and
      every stage that runs before it completes. */
  predicate FirstFailure(o: RpcOracle, s: Stage)
  {
    && s != ReceiveBody
    && !StageSucceeds(o, s)
    && forall s': Stage :: StageOrder(s') < StageOrder(s) ==> StageSucceeds(o, s')
  }

  /** Everything the command observes during one turn. `now` is the engine's
      wall clock in whole seconds. */
  datatype Turn = Turn(
    downloadFinished: bool,
    haltRequested: bool,
    readable: bool,
    contentLength: int,
    receive: ReceiveOutcome,
    path: string,
    rpc: RpcOracle,
    now: int)

  /** The command's own state: its ids and the start of its inactivity timer. */
  datatype Cmd = Cmd(cuid: CommandId, server: ServerId, socket: SocketId, timer: int)

  /** A response handed to the transport for sending. */
  datatype Response = Response(payload: string, contentType: string)

  /** A command handed to the engine's queue during a turn. */
  datatype Added =
    | Self                                                   // the body command itself
    | ResponseCommand(cuid: CommandId, server: ServerId, socket: SocketId)

  /** Why a turn ended the way it did. This tag belongs to the model: the
      program itself logs only the timeout and caught failures, with one
      message for all failure stages. */
  datatype Exit =
    | Shutdown        // downloads finished or halt requested
    | AwaitingBody    // progress made, body not yet complete
    | Idle            // no progress, still inside the inactivity window
    | TimedOut        // no progress for the whole inactivity window
    | NotRpc          // body complete, path is not the RPC endpoint
    | Served          // body complete, XML-RPC response staged
    | Failed(stage: Stage)   // a recoverable exception was caught

  /** The effects of one turn. `finished` is the value `execute` returns. */
  datatype Effects = Effects(
    finished: bool,
    timer: int,
    staged: Option<Response>,
    added: seq<Added>,
    noWait: bool,
    exit: Exit)

  /** The engine asks every command to stop. */
  predicate ShutdownSignalled(t: Turn)
  {
    t.downloadFinished || t.haltRequested
  }

  /** The socket is readable, or no body bytes are expected at all. */
  predicate ProgressObserved(t: Turn)
  {
    t.readable || t.contentLength == 0
  }

  /** Seconds since the command's timer was last reset. */
  function Elapsed(c: Cmd, t: Turn): int
  {
    t.now - c.timer
  }

  /** Number of response commands in a list of queued commands. */
  function ResponseCommands(added: seq<Added>): nat
  {
    if |added| == 0 then 0
    else (if added[0].ResponseCommand? then 1 else 0) + ResponseCommands(added[1..])
  }

  /** The turn sends nothing to the peer: nothing staged, no response
      command queued, and the engine is not told to skip waiting. */
  predicate NoResponse(e: Effects)
  {
    e.staged.None? && ResponseCommands(e.added) == 0 && !e.noWait
  }

  /** The turn reached the routing decision with a complete body. */
  predicate BodyRouted(e: Effects)
  {
    e.exit.Served? || e.exit.NotRpc? || (e.exit.Failed? && e.exit.stage != ReceiveBody)
  }

  /** The turn handed the body to the XML-RPC layer. */
  predicate RpcInvoked(e: Effects)
  {
    e.exit.Served? || (e.exit.Failed? && e.exit.stage != ReceiveBody)
  }
}
