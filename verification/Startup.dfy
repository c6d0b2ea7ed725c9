/**
 * From the configured addresses to the running server: the sockets of webserv/sources/server/SocketManager.cpp
 * are a valid start for the event loop.
 */
module Startup {
  import opened VirtualHosts
  import opened ListenSockets
  import opened PollLayout
  import opened PollFds
  import EventLoop

  /** The table entries behind every listening socket. */
  function HintsOf(t: seq<Entry>): (hints: seq<seq<nat>>)
    ensures |hints| == |ListenFds(t)|
    ensures forall k :: 0 <= k < |hints| ==> hints[k] == Members(t, ListenFds(t)[k])
  {
    seq(|ListenFds(t)|, k requires 0 <= k < |ListenFds(t)| => Members(t, ListenFds(t)[k]))
  }

  /** What `initSockets` leaves behind is a safe state without clients. */
  lemma SocketsAreSafe(t: seq<Entry>)
    requires Partitioned(t) && Shared(t)
    ensures Distinct(ListenFds(t))
    ensures Hints(World(ListenFds(t), HintsOf(t), [], []))
  {
    var fds := ListenFds(t);
    ListenFdsAreDistinct(t, |t|);
    assert t[..|t|] == t;
    forall k | 0 <= k < |fds| ensures fds[k] >= 0 && |Members(t, fds[k])| > 0 {
      assert IsBound(t, |t|, fds[k]);
      var i :| 0 <= i < |t| && !t[i].alreadyBound && t[i].fd == fds[k];
      WholeClass(t, i);
    }
  }

  /**
   * The whole server: the sockets of the configured addresses are opened, and after any number of
   * turns of the main loop the server's vectors show a safe state that steps lead to from the state
   * with these sockets and without clients.
   */
  method Serve(servers: seq<seq<Address>>, turns: nat) returns (ok: bool, table: seq<Entry>, server: EventLoop.Server?)
    ensures Lists(table, servers)
    ensures ok ==> Partitioned(table) && Shared(table)
    ensures ok ==> server != null && fresh(server) && server.Valid() && Inv(server.world)
    ensures ok ==> Reaches(World(ListenFds(table), HintsOf(table), [], []), server.world)
  {
    var sockets := new SocketManager();
    sockets.SetTableOfListen(servers);
    ghost var listed := sockets.table;
    sockets.HandleVirtualHost();
    StillLists(listed, sockets.table, servers);
    ghost var bound := sockets.table;
    ok := sockets.InitSockets();
    StillLists(bound, sockets.table, servers);
    table, server := sockets.table, null;
    if ok {
      SocketsAreSafe(table);
      hide Partitioned, Shared, Distinct, Hints, Inv, ListenFds, Members, Lists;
      var started := new EventLoop.Server(ListenFds(table), HintsOf(table));
      started.RunCoreLoop(turns);
      server := started;
    }
  }
}
