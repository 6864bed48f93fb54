/** Concrete runs of the body command on hand-built observations. */
module Scenarios {
  import opened Results
  import opened Domain
  import opened BodyCommand
  import opened Schedule

  /** An XML-RPC pipeline in which every stage completes. */
  function WorkingRpc(payload: string): RpcOracle
  {
    RpcOracle(true, true, true, Some(payload))
  }

  /** A turn of a 50-byte body on a socket that is never readable, at clock `now`. */
  function SilentTurn(now: int): Turn
  {
    Turn(false, false, false, 50, BodyIncomplete, "/rpc", WorkingRpc("<r/>"), now)
  }

  /** A bodiless request to the RPC endpoint is served on its first turn, on
      a socket that is not readable. */
  lemma EmptyRpcRequestServedInOneTurn(c: Cmd, payload: string)
    ensures var t := Turn(false, false, false, 0, BodyComplete, "/rpc", WorkingRpc(payload), 7);
      && Run(c, [t]) == [Execute(c, t)]
      && Execute(c, t).exit == Served
      && Execute(c, t).staged == Some(Response(payload, "text/xml"))
      && Execute(c, t).added == [ResponseCommand(c.cuid, c.server, c.socket)]
  {
  }

  /** A complete body to a path other than the RPC endpoint ends the command
      without touching the XML-RPC layer or sending anything. */
  lemma OtherPathIsDropped(c: Cmd)
    ensures var t := Turn(false, false, true, 12, BodyComplete, "/download-status", WorkingRpc("<r/>"), 3);
      && Execute(c, t).finished && Execute(c, t).exit == NotRpc
      && !RpcInvoked(Execute(c, t)) && NoResponse(Execute(c, t))
  {
  }

  /** A command whose timer started at 0 and that sees the clock tick 0, 1,
      ..., 31 without the socket becoming readable waits for 30 turns and
      times out on the turn at clock 30. */
  lemma SilentPeerTimesOutAtThirtySeconds(c: Cmd)
    requires c.timer == 0
    ensures var es := Run(c, seq(32, i => SilentTurn(i)));
      && |es| == 31
      && (forall i :: 0 <= i < 30 ==> es[i].exit == Idle)
      && es[30].exit == TimedOut
      && StagedResponses(es) == 0
  {
    var ts := seq(32, i => SilentTurn(i));
    assert forall i :: 0 <= i < |ts| ==> ts[i].now == i && Stalled(ts[i]);
    StalledRunTimesOut(c, ts);
    var es := Run(c, ts);
    assert ts[30].now - c.timer >= BodyTimeoutSeconds;
    assert forall i :: 0 <= i < |es| && i < 30 ==> !es[i].finished;
    assert |es| == 31;
    assert es[30].finished;
    StalledRunStagesNothing(c, ts);
  }
}
