// TcpServer as an object on the main loop. Each method is what the main thread does in one step of the reactor
// machine, with the source's own assertion in place; the steps of the other loops come between the calls.

module TcpServers {
  import opened Reactor

  class TcpServer {
    var connectionsMap: map<int, nat>
    var nextConnId: int
    /** The whole system that the server is part of. */
    ghost var system: State

    ghost predicate Valid()
      reads this
    {
      Reachable(system) && connectionsMap == system.connections && 1 <= nextConnId < 1000
    }

    /** Before the server is started; `start` has the loops of the thread pool. */
    constructor (ghost start: State)
      requires Initial(start)
      ensures Valid() && system == start && connectionsMap == map[] && nextConnId == 1
    {
      connectionsMap, nextConnId, system := map[], 1, start;
      new;
      RunSelf(start);
    }

    /** The other loops, the destruction of connections, and the parts of the main loop's work that the map has no
        share in. */
    ghost method Elsewhere(a: Action)
      requires Valid() && Enabled(system, a) && Next(system, a).connections == system.connections
      modifies `system
      ensures Valid() && system == Next(old(system), a)
    {
      ReachableStep(system, a);
      system := Next(system, a);
    }

    /** HandleNewConnection from the map's update to the next id. */
    method StoreConnection(fd: int, conn: nat)
      requires Valid() && Enabled(system, InsertConnection)
      requires conn == system.loops[0].place.conn && fd == system.conns[conn].fd
      modifies this
      ensures Valid() && system == Next(old(system), InsertConnection)
      ensures fd !in old(connectionsMap) && connectionsMap == old(connectionsMap)[fd := conn]
      ensures nextConnId == if old(nextConnId) == 999 then 1 else old(nextConnId) + 1
    {
      InsertNeverOverwrites(system);
      ReachableStep(system, InsertConnection);
      connectionsMap := connectionsMap[fd := conn];
      nextConnId := nextConnId + 1;
      if nextConnId == 1000 {
        nextConnId := 1;
      }
      system := Next(system, InsertConnection);
    }

    /** HandleCloseInLoop up to the erasure, `step` being the call: straight from HandleClose on the main loop, or
        the queued task. */
    method HandleCloseInLoop(fd: int, conn: nat, ghost step: Action)
      requires Valid() && Enabled(system, step)
      requires
        || (step == TellServer(0) && conn == system.loops[0].place.conn)
        || (step == RunTask(0) && system.loops[0].batch[0] == CloseInLoop(conn))
      requires fd == system.conns[conn].fd
      modifies this
      ensures Valid() && system == Next(old(system), step)
      ensures fd in old(connectionsMap) && old(connectionsMap)[fd] == conn
      ensures connectionsMap == old(connectionsMap) - {fd} && nextConnId == old(nextConnId)
    {
      if step.TellServer? {
        DirectCloseFindsEntry(system);
      } else {
        QueuedCloseFindsEntry(system, 0);
      }
      assert fd in connectionsMap;
      ReachableStep(system, step);
      connectionsMap := connectionsMap - {fd};
      system := Next(system, step);
    }
  }
}
