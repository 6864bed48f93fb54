/** Sequences of turns of one body command. The engine runs the command again
    only when the previous turn queued it, so a run stops at the first turn
    that reports finished. */
module Schedule {
  import opened Results
  import opened Domain
  import opened TurnRules
  import opened BodyCommand

  /** The command state a turn leaves behind for the next one. */
  function After(c: Cmd, e: Effects): Cmd
  {
    c.(timer := e.timer)
  }

  /** The effects of running the command on the observed turns, in order,
      until a turn reports finished or the observations run out. */
  function Run(c: Cmd, ts: seq<Turn>): (es: seq<Effects>)
    ensures |es| <= |ts|
    ensures |ts| > 0 ==> |es| > 0 && es[0] == Execute(c, ts[0])
    ensures forall i :: 0 <= i < |es| - 1 ==> !es[i].finished
    ensures |es| < |ts| ==> es[|es| - 1].finished
    ensures forall i :: 0 <= i < |es| ==>
      (es[i].finished <==> !es[i].exit.AwaitingBody? && !es[i].exit.Idle?)
    decreases |ts|
  {
    if |ts| == 0 then []
    else
      var e := Execute(c, ts[0]);
      if e.finished then [e] else [e] + Run(After(c, e), ts[1..])
  }

  /** Each turn after the first runs with the timer the previous turn left. */
  lemma {:induction false} RunChainsTimers(c: Cmd, ts: seq<Turn>)
    ensures forall i :: 0 < i < |Run(c, ts)| ==>
      Run(c, ts)[i] == Execute(c.(timer := Run(c, ts)[i - 1].timer), ts[i])
    decreases |ts|
  {
    if |ts| > 0 {
      var e := Execute(c, ts[0]);
      if !e.finished {
        var rest := Run(After(c, e), ts[1..]);
        RunChainsTimers(After(c, e), ts[1..]);
        assert Run(c, ts) == [e] + rest;
        forall i | 0 < i < |Run(c, ts)|
          ensures Run(c, ts)[i] == Execute(c.(timer := Run(c, ts)[i - 1].timer), ts[i])
        {
          if i > 1 {
            assert Run(c, ts)[i] == rest[i - 1];
            assert ts[i] == ts[1..][i - 1];
          } else {
            assert rest[0] == Execute(After(c, e), ts[1..][0]);
          }
        }
      }
    }
  }

  /** Number of turns that routed a complete body. */
  function RoutedTurns(es: seq<Effects>): nat
  {
    if |es| == 0 then 0 else (if BodyRouted(es[0]) then 1 else 0) + RoutedTurns(es[1..])
  }

  /** Number of times the command queued itself. */
  function SelfEnqueues(es: seq<Effects>): nat
  {
    if |es| == 0 then 0 else (if Self in es[0].added then 1 else 0) + SelfEnqueues(es[1..])
  }

  /** Number of response commands queued over all turns. */
  function ResponseCommandsQueued(es: seq<Effects>): nat
  {
    if |es| == 0 then 0 else ResponseCommands(es[0].added) + ResponseCommandsQueued(es[1..])
  }

  /** Number of turns that staged a response. */
  function StagedResponses(es: seq<Effects>): nat
  {
    if |es| == 0 then 0 else (if es[0].staged.Some? then 1 else 0) + StagedResponses(es[1..])
  }

  /** The run ends with a finished turn. */
  predicate Terminated(es: seq<Effects>)
  {
    |es| > 0 && es[|es| - 1].finished
  }

  /** A complete body is routed at most once per command, and at most one
      response is staged and one response command queued over its whole life;
      a response command is queued exactly when a response is staged. */
  lemma {:induction false} DispatchAtMostOnce(c: Cmd, ts: seq<Turn>)
    ensures RoutedTurns(Run(c, ts)) <= 1
    ensures StagedResponses(Run(c, ts)) <= 1
    ensures ResponseCommandsQueued(Run(c, ts)) == StagedResponses(Run(c, ts))
    decreases |ts|
  {
    if |ts| > 0 {
      var e := Execute(c, ts[0]);
      ResponseOnlyWhenServed(c, ts[0]);
      if e.finished {
        assert Run(c, ts) == [e];
        assert Run(c, ts)[1..] == [];
      } else {
        var rest := Run(After(c, e), ts[1..]);
        DispatchAtMostOnce(After(c, e), ts[1..]);
        assert Run(c, ts)[1..] == rest;
        assert !BodyRouted(e) && e.staged.None?;
      }
    }
  }

  /** The command queues itself once for every turn that reports not finished
      and never on a finished turn. */
  lemma {:induction false} ReenqueueCount(c: Cmd, ts: seq<Turn>)
    ensures SelfEnqueues(Run(c, ts)) ==
      |Run(c, ts)| - (if Terminated(Run(c, ts)) then 1 else 0)
    decreases |ts|
  {
    if |ts| > 0 {
      var e := Execute(c, ts[0]);
      if e.finished {
        assert Run(c, ts) == [e];
        assert Run(c, ts)[1..] == [];
      } else {
        var rest := Run(After(c, e), ts[1..]);
        ReenqueueCount(After(c, e), ts[1..]);
        assert Run(c, ts)[1..] == rest;
        assert Self in e.added;
        if |rest| > 0 {
          assert Run(c, ts)[|Run(c, ts)| - 1] == rest[|rest| - 1];
        }
      }
    }
  }

  /** A turn that neither observes progress nor sees a shutdown signal. */
  predicate Stalled(t: Turn)
  {
    !ShutdownSignalled(t) && !t.readable && t.contentLength != 0
  }

  /** While the socket stays silent, the timer keeps its start, each turn
      gives up exactly when 30 seconds have passed since that start, and the
      run is over by the first turn whose clock reaches it. */
  lemma {:induction false} StalledRunTimesOut(c: Cmd, ts: seq<Turn>)
    requires forall i :: 0 <= i < |ts| ==> Stalled(ts[i])
    ensures forall i :: 0 <= i < |Run(c, ts)| ==>
      && Run(c, ts)[i].timer == c.timer
      && (Run(c, ts)[i].finished <==> ts[i].now - c.timer >= BodyTimeoutSeconds)
      && Run(c, ts)[i].exit in {Idle, TimedOut}
    ensures forall i :: 0 <= i < |ts| && ts[i].now - c.timer >= BodyTimeoutSeconds ==>
      |Run(c, ts)| <= i + 1
    decreases |ts|
  {
    if |ts| > 0 {
      var e := Execute(c, ts[0]);
      assert e.timer == c.timer;
      if !e.finished {
        assert After(c, e) == c;
        var rest := Run(c, ts[1..]);
        assert forall i :: 0 <= i < |ts[1..]| ==> Stalled(ts[1..][i]);
        StalledRunTimesOut(c, ts[1..]);
        assert Run(c, ts) == [e] + rest;
        forall i | 0 < i < |ts| && ts[i].now - c.timer >= BodyTimeoutSeconds
          ensures |Run(c, ts)| <= i + 1
        {
          assert ts[1..][i - 1] == ts[i];
        }
        forall i | 0 < i < |Run(c, ts)|
          ensures Run(c, ts)[i].finished <==> ts[i].now - c.timer >= BodyTimeoutSeconds
        {
          assert Run(c, ts)[i] == rest[i - 1];
          assert ts[1..][i - 1] == ts[i];
        }
      }
    }
  }

  /** Nothing is staged while the socket stays silent. */
  lemma {:induction false} StalledRunStagesNothing(c: Cmd, ts: seq<Turn>)
    requires forall i :: 0 <= i < |ts| ==> Stalled(ts[i])
    ensures StagedResponses(Run(c, ts)) == 0
    decreases |ts|
  {
    if |ts| > 0 {
      var e := Execute(c, ts[0]);
      if e.finished {
        assert Run(c, ts) == [e];
        assert Run(c, ts)[1..] == [];
      } else {
        assert forall i :: 0 <= i < |ts[1..]| ==> ts[1..][i] == ts[i + 1];
        StalledRunStagesNothing(After(c, e), ts[1..]);
        assert Run(c, ts)[1..] == Run(After(c, e), ts[1..]);
      }
    }
  }

  /** A body that keeps trickling in never times out: when every turn makes
      progress without completing the body, the command stays queued and its
      timer follows the clock. */
  lemma {:induction false} TricklingBodyNeverTimesOut(c: Cmd, ts: seq<Turn>)
    requires forall i :: 0 <= i < |ts| ==>
      !ShutdownSignalled(ts[i]) && ProgressObserved(ts[i]) && ts[i].receive == BodyIncomplete
    ensures |Run(c, ts)| == |ts|
    ensures forall i :: 0 <= i < |ts| ==>
      !Run(c, ts)[i].finished && Run(c, ts)[i].timer == ts[i].now
    decreases |ts|
  {
    if |ts| > 0 {
      var e := Execute(c, ts[0]);
      var rest := Run(After(c, e), ts[1..]);
      assert forall i :: 0 <= i < |ts[1..]| ==> ts[1..][i] == ts[i + 1];
      TricklingBodyNeverTimesOut(After(c, e), ts[1..]);
      assert Run(c, ts) == [e] + rest;
      forall i | 0 < i < |ts|
        ensures !Run(c, ts)[i].finished && Run(c, ts)[i].timer == ts[i].now
      {
        assert Run(c, ts)[i] == rest[i - 1];
        assert ts[1..][i - 1] == ts[i];
      }
    }
  }

  /** A shutdown signal observed on any turn ends the run on that turn, even
      if the body would be complete and routable. */
  lemma {:induction false} ShutdownEndsRun(c: Cmd, ts: seq<Turn>, k: nat)
    requires k < |ts| && ShutdownSignalled(ts[k])
    ensures |Run(c, ts)| <= k + 1
    ensures |Run(c, ts)| == k + 1 ==> Run(c, ts)[k].exit == Shutdown
    decreases |ts|
  {
    var e := Execute(c, ts[0]);
    if k > 0 && !e.finished {
      assert ts[1..][k - 1] == ts[k];
      ShutdownEndsRun(After(c, e), ts[1..], k - 1);
      assert Run(c, ts) == [e] + Run(After(c, e), ts[1..]);
    }
  }
}
