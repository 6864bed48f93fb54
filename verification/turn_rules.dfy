/** The behaviour of one turn of the body command, stated rule by rule as a
    relation between the command state, the observations and the effects.
    Each rule is one promise of the command; `Rules` is their conjunction and
    `RulesDetermineEffects` shows that together they leave no freedom. */
module TurnRules {
  import opened Results
  import opened Domain

  /** A halt or finished-downloads signal ends the turn before anything else
      happens: no timer reset, no body read, no routing, no re-enqueue. */
  predicate ShutdownPrecedence(c: Cmd, t: Turn, e: Effects)
  {
    ShutdownSignalled(t) ==>
      && e.finished
      && e.timer == c.timer
      && e.added == []
      && NoResponse(e)
      && e.exit == Shutdown
  }

  /** The command queues itself again exactly when it reports it is not
      finished, and then it queues nothing else and sends nothing. */
  predicate ReenqueueIffUnfinished(e: Effects)
  {
    && (!e.finished ==> e.added == [Self] && NoResponse(e))
    && (e.finished ==> Self !in e.added)
  }

  /** The inactivity timer restarts at the current clock exactly on turns that
      observe progress; on other turns it keeps its start. */
  predicate TimerRule(c: Cmd, t: Turn, e: Effects)
  {
    !ShutdownSignalled(t) ==>
      && (ProgressObserved(t) ==> e.timer == t.now)
      && (!ProgressObserved(t) ==> e.timer == c.timer)
  }

  /** Without progress, the turn gives up exactly when at least the timeout
      has elapsed since the timer's start, and otherwise waits. */
  predicate TimeoutRule(c: Cmd, t: Turn, e: Effects)
  {
    (!ShutdownSignalled(t) && !ProgressObserved(t)) ==>
      && (e.finished <==> Elapsed(c, t) >= BodyTimeoutSeconds)
      && NoResponse(e)
      && e.exit == (if e.finished then TimedOut else Idle)
  }

  /** With progress, the body read decides: an incomplete body waits for the
      next turn, a raised read ends the turn silently, a complete body ends it. */
  predicate ReceiveRule(t: Turn, e: Effects)
  {
    (!ShutdownSignalled(t) && ProgressObserved(t)) ==>
      && (t.receive == BodyIncomplete ==> !e.finished && e.exit == AwaitingBody)
      && (t.receive == ReceiveRaised ==>
            e.finished && e.added == [] && NoResponse(e) && e.exit == Failed(ReceiveBody))
      && (t.receive == BodyComplete ==> e.finished)
  }

  /** A complete body is routed on its exact path: the RPC endpoint gets the
      serialised response staged as XML, one response command for the same
      cuid, transport and socket, and a no-wait request; if a stage of the
      XML-RPC pipeline raises, nothing is sent and the first failing stage is
      reported; any other path ends the turn with nothing sent. */
  predicate RoutingRule(c: Cmd, t: Turn, e: Effects)
  {
    (!ShutdownSignalled(t) && ProgressObserved(t) && t.receive == BodyComplete) ==>
      && (t.path == RpcPath && AllRpcStagesSucceed(t.rpc) ==>
            && e.staged == Some(Response(t.rpc.serialised.value, ResponseContentType))
            && e.added == [ResponseCommand(c.cuid, c.server, c.socket)]
            && e.noWait
            && e.exit == Served)
      && (t.path == RpcPath && !AllRpcStagesSucceed(t.rpc) ==>
            && e.added == []
            && NoResponse(e)
            && e.exit.Failed?
            && FirstFailure(t.rpc, e.exit.stage))
      && (t.path != RpcPath ==> e.added == [] && NoResponse(e) && e.exit == NotRpc)
  }

  /** All promises of one turn. */
  predicate Rules(c: Cmd, t: Turn, e: Effects)
  {
    && ShutdownPrecedence(c, t, e)
    && ReenqueueIffUnfinished(e)
    && TimerRule(c, t, e)
    && TimeoutRule(c, t, e)
    && ReceiveRule(t, e)
    && RoutingRule(c, t, e)
  }

  /** The rules are complete: two effect records that both satisfy them for
      the same state and observations are the same record. */
  lemma RulesDetermineEffects(c: Cmd, t: Turn, e1: Effects, e2: Effects)
    requires Rules(c, t, e1) && Rules(c, t, e2)
    ensures e1 == e2
  {
  }
}
