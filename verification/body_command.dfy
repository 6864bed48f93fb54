/** One turn of the HTTP request body command (HttpServerBodyCommand::execute)
    as a pure function from the command state and the turn's observations to
    the turn's effects. */
module BodyCommand {
  import opened Results
  import opened Domain
  import opened TurnRules

  /** The XML-RPC steps run on a complete body addressed to the RPC endpoint:
      parse, look the method up, execute it, serialise the response. The first
      step that raises stops the pipeline; its stage is the failure. */
  function Dispatch(o: RpcOracle): (r: Result<string, Stage>)
    ensures r.Success? <==> AllRpcStagesSucceed(o)
    ensures r.Success? ==> Some(r.value) == o.serialised
    ensures r.Failure? ==> FirstFailure(o, r.error)
  {
    if !o.parsed then Failure(ParseRequest)
    else if !o.methodFound then Failure(LookupMethod)
    else if !o.executed then Failure(ExecuteMethod)
    else match o.serialised
      case None => Failure(SerialiseResponse)
      case Some(payload) => Success(payload)
  }

  /** A turn that returns finished with nothing sent. */
  function Finish(timer: int, exit: Exit): Effects
  {
    Effects(true, timer, None, [], false, exit)
  }

  /** A turn that queues the command again and returns not finished. */
  function Requeue(timer: int, exit: Exit): Effects
  {
    Effects(false, timer, None, [Self], false, exit)
  }

  /** The progress branch, run after the timer was restarted: read more of the
      body and, once it is complete, route it on its path. */
  function ReceiveAndRoute(c: Cmd, t: Turn): Effects
  {
    match t.receive
    case ReceiveRaised => Finish(c.timer, Failed(ReceiveBody))
    case BodyIncomplete => Requeue(c.timer, AwaitingBody)
    case BodyComplete =>
      if t.path == RpcPath then
        match Dispatch(t.rpc)
        case Failure(stage) => Finish(c.timer, Failed(stage))
        case Success(payload) =>
          Effects(true, c.timer, Some(Response(payload, ResponseContentType)),
                  [ResponseCommand(c.cuid, c.server, c.socket)], true, Served)
      else
        Finish(c.timer, NotRpc)
  }

  /** One scheduler turn. */
  function Execute(c: Cmd, t: Turn): (e: Effects)
    ensures ShutdownPrecedence(c, t, e)
    ensures ReenqueueIffUnfinished(e)
    ensures TimerRule(c, t, e)
    ensures TimeoutRule(c, t, e)
    ensures ReceiveRule(t, e)
    ensures RoutingRule(c, t, e)
  {
    if ShutdownSignalled(t) then
      Finish(c.timer, Shutdown)
    else if ProgressObserved(t) then
      ReceiveAndRoute(c.(timer := t.now), t)
    else if Elapsed(c, t) >= BodyTimeoutSeconds then
      Finish(c.timer, TimedOut)
    else
      Requeue(c.timer, Idle)
  }

  /** `Execute` is the only function meeting the rules: any effect record
      satisfying them is the one `Execute` produces. */
  lemma ExecuteIsTheRules(c: Cmd, t: Turn, e: Effects)
    ensures Rules(c, t, e) <==> e == Execute(c, t)
  {
  }

  /** A response is staged, a response command queued and no-wait requested
      on exactly the turns that serve the RPC endpoint, and only a finished
      turn does any of these. */
  lemma ResponseOnlyWhenServed(c: Cmd, t: Turn)
    ensures Execute(c, t).staged.Some? <==> Execute(c, t).exit == Served
    ensures Execute(c, t).noWait <==> Execute(c, t).exit == Served
    ensures ResponseCommands(Execute(c, t).added) <= 1
    ensures ResponseCommands(Execute(c, t).added) == 1 <==> Execute(c, t).exit == Served
    ensures Execute(c, t).exit == Served ==> Execute(c, t).finished
  {
  }

  /** The turn reports unfinished only while waiting for the body. */
  lemma UnfinishedMeansWaiting(c: Cmd, t: Turn)
    ensures !Execute(c, t).finished <==> Execute(c, t).exit in {AwaitingBody, Idle}
  {
  }

  /** With no bytes expected, the body is read on the first turn even when the
      socket is not readable, and the timer restarts at the current clock. */
  lemma EmptyBodyFastPath(c: Cmd, t: Turn)
    requires !ShutdownSignalled(t) && t.contentLength == 0 && !t.readable
    ensures Execute(c, t).timer == t.now
    ensures Execute(c, t).exit !in {Idle, TimedOut}
    ensures t.receive == BodyComplete ==> Execute(c, t).finished && BodyRouted(Execute(c, t))
  {
  }

  /** The timeout boundary: waiting 29 seconds keeps the command queued with
      its timer unchanged; waiting 30 seconds ends it without a response. */
  lemma TimeoutBoundary(c: Cmd, t: Turn)
    requires !ShutdownSignalled(t) && !t.readable && t.contentLength != 0
    ensures t.now == c.timer + 29 ==>
      Execute(c, t) == Effects(false, c.timer, None, [Self], false, Idle)
    ensures t.now == c.timer + 30 ==>
      Execute(c, t) == Effects(true, c.timer, None, [], false, TimedOut)
  {
  }

  /** Routing compares the whole path: a trailing slash, a query string, a
      different case or the empty path are not the RPC endpoint. */
  lemma RoutingIsExactMatch(c: Cmd, t: Turn)
    requires !ShutdownSignalled(t) && ProgressObserved(t) && t.receive == BodyComplete
    requires t.path in {"/rpc/", "/rpc?id=1", "/RPC", "", "/download-status"}
    ensures Execute(c, t) == Effects(true, t.now, None, [], false, NotRpc)
  {
  }

  /** A complete body to the RPC endpoint whose pipeline runs through is served
      under the content type "text/xml" with its serialised payload. */
  lemma RpcBodyIsServed(c: Cmd, t: Turn)
    requires !ShutdownSignalled(t) && ProgressObserved(t) && t.receive == BodyComplete
    requires t.path == "/rpc" && AllRpcStagesSucceed(t.rpc)
    ensures Execute(c, t).staged == Some(Response(t.rpc.serialised.value, "text/xml"))
    ensures Execute(c, t).added == [ResponseCommand(c.cuid, c.server, c.socket)]
    ensures Execute(c, t).noWait && Execute(c, t).finished
  {
  }

  /** Any recoverable failure, from the body read or from any XML-RPC stage,
      ends the turn as finished with nothing queued and nothing sent. */
  lemma ErrorContainment(c: Cmd, t: Turn)
    requires !ShutdownSignalled(t) && ProgressObserved(t)
    requires t.receive == ReceiveRaised
          || (t.receive == BodyComplete && t.path == RpcPath && !AllRpcStagesSucceed(t.rpc))
    ensures Execute(c, t).finished
    ensures Execute(c, t).added == [] && NoResponse(Execute(c, t))
    ensures Execute(c, t).exit.Failed?
  {
  }
}
