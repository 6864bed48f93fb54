/** Read-check bookkeeping of the body command: the constructor asks the
    engine to watch the socket for readability on the command's behalf, and
    the destructor, run by the engine once a turn reports finished, withdraws
    that request. The engine's read-check table is a multiset of requests. */
module Lifecycle {
  import opened Domain
  import opened BodyCommand
  import opened Schedule

  /** One request to watch a socket for readability on behalf of a command. */
  datatype ReadCheck = ReadCheck(socket: SocketId, cuid: CommandId)

  /** The engine's read-check table. */
  type Registry = multiset<ReadCheck>

  /** The request a command files for its socket. */
  function CheckOf(c: Cmd): ReadCheck
  {
    ReadCheck(c.socket, c.cuid)
  }

  /** A freshly constructed command and the table after it registered. The
      timer starts at `start`; the table gains exactly one request, its own. */
  function Construct(reg: Registry, cuid: CommandId, server: ServerId, socket: SocketId, start: int)
    : (r: (Cmd, Registry))
    ensures r.0.cuid == cuid && r.0.server == server && r.0.socket == socket && r.0.timer == start
    ensures r.1[CheckOf(r.0)] == reg[CheckOf(r.0)] + 1
    ensures forall k :: k != CheckOf(r.0) ==> r.1[k] == reg[k]
    ensures |r.1| == |reg| + 1
  {
    var c := Cmd(cuid, server, socket, start);
    (c, reg + multiset{CheckOf(c)})
  }

  /** The table after the command is destroyed: one occurrence of its own
      request is removed, nothing else changes. */
  function Destroy(reg: Registry, c: Cmd): (reg': Registry)
    ensures CheckOf(c) in reg ==> reg'[CheckOf(c)] == reg[CheckOf(c)] - 1 && |reg'| == |reg| - 1
    ensures CheckOf(c) !in reg ==> reg' == reg
    ensures forall k :: k != CheckOf(c) ==> reg'[k] == reg[k]
  {
    reg - multiset{CheckOf(c)}
  }

  /** Construct a command, run it over the observed turns, and destroy it if
      a turn reported finished. Returns the effects and the final table. */
  function Lifetime(reg: Registry, cuid: CommandId, server: ServerId, socket: SocketId,
                    start: int, ts: seq<Turn>): (seq<Effects>, Registry)
  {
    var (c, reg1) := Construct(reg, cuid, server, socket, start);
    var es := Run(c, ts);
    (es, if Terminated(es) then Destroy(reg1, c) else reg1)
  }

  /** Registration is balanced on every exit path: once the command has
      finished, for whatever reason, the table is exactly what it was before
      construction; while it is still queued, the table holds exactly one
      extra request, the command's own. */
  lemma ReadCheckBalanced(reg: Registry, cuid: CommandId, server: ServerId, socket: SocketId,
                          start: int, ts: seq<Turn>)
    ensures var (es, reg') := Lifetime(reg, cuid, server, socket, start, ts);
      && (Terminated(es) ==> reg' == reg)
      && (!Terminated(es) ==> reg' == reg + multiset{ReadCheck(socket, cuid)})
  {
  }

  /** Turns never touch the table: only construction and destruction do.
      Finished runs end in any of the terminal exits, and all restore it. */
  lemma EveryExitDeregisters(reg: Registry, cuid: CommandId, server: ServerId, socket: SocketId,
                             start: int, ts: seq<Turn>)
    requires Terminated(Lifetime(reg, cuid, server, socket, start, ts).0)
    ensures var (es, reg') := Lifetime(reg, cuid, server, socket, start, ts);
      && (es[|es| - 1].exit.Failed? || es[|es| - 1].exit in {Shutdown, TimedOut, NotRpc, Served})
      && reg'[ReadCheck(socket, cuid)] == reg[ReadCheck(socket, cuid)]
  {
  }
}
