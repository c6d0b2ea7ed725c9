/**
 * The event loop: the client vector and the poll array that `Server` and `SocketManager` change
 * in place (webserv/sources/server/server.cpp, webserv/sources/server/SocketManager.cpp,
 * webserv/sources/cgi/CGI.cpp), every method proved to be a run of the steps of `PollLayout`.
 */
module EventLoop {
  import opened PollFds
  import opened PollLayout
  import opened PollArray
  import opened Turns
  import opened Timeouts
  import opened Reports
  import Os

  class Server {
    const openPort: nat
    const hints: seq<seq<nat>>      // what detectServerBlock returns for each listening socket
    var clients: seq<Client>
    var pollfd: seq<PollFd>
    ghost var world: World          // the three parts of the array

    /** The vectors are laid out as `world`, which is a safe state. */
    ghost predicate Valid()
      reads this
    {
      world.hints == hints && |world.listen| == openPort && Shows(clients, pollfd, world)
    }

    /** What `poll` reported for the clients' sockets. */
    ghost function ClientRevs(): (revs: seq<Revents>)
      reads this
      ensures |revs| == |clients|
    {
      RevsOf(pollfd, openPort, |clients|)
    }

    /** The clients, and what was reported for each. */
    ghost function Present(): (p: Roster)
      reads this
      ensures Full(p)
    {
      Roster(clients, ClientRevs())
    }

    ghost function PipeEntries(): seq<PollFd>
      reads this
    {
      Behind(pollfd, openPort + |clients|)
    }

    /** What was reported for the listening sockets. */
    ghost function ListenRevs(): seq<Revents>
      reads this
    {
      RevsOf(pollfd, 0, openPort)
    }

    /** Nothing but clients and pipes went. */
    ghost predicate BehindKept(listening: seq<Revents>, entries: seq<PollFd>)
      reads this
    {
      ListenRevs() == listening && Within(PipeEntries(), entries)
    }

    constructor (listen: seq<int>, hints: seq<seq<nat>>)
      requires Distinct(listen) && Hints(World(listen, hints, [], []))
      ensures Valid() && world == World(listen, hints, [], []) && Current(pollfd, 0)
    {
      openPort := |listen|;
      this.hints := hints;
      clients := [];
      pollfd := seq(|listen|, k requires 0 <= k < |listen| => PollFd(listen[k], IN, QUIET));
      world := World(listen, hints, [], []);
      new;
      assert OpenFds(world) == listen;
    }

    /** A new client goes behind the last one, before the pipes. */
    method AddClients(fd: int, k: nat, now: int, timeOut: int)
      requires Valid() && k < openPort && NewFd(world, fd) && Current(pollfd, 0)
      modifies this
      ensures Valid() && world == Apply(old(world), Accept(k, fd, now, timeOut)) && Current(pollfd, 0)
      ensures clients == old(clients) + [NewClient(fd, now, timeOut, hints[k])]
      ensures openPort <= |old(pollfd)| <= |pollfd| && pollfd[..openPort] == old(pollfd)[..openPort]
      ensures ClientRevs() == old(ClientRevs()) + [QUIET] && PipeEntries() == old(PipeEntries())
    {
      ghost var s := Accept(k, fd, now, timeOut);
      ShowsAccept(clients, pollfd, world, s);
      RevsInsert(pollfd, openPort, |clients|, fd);
      BehindInsert(pollfd, openPort + |clients|, PollFd(fd, IN, QUIET));
      CurrentInsert(pollfd, openPort + |clients|, fd);
      hide Shows, Current, Apply, RevsOf, Behind;
      clients := clients + [NewClient(fd, now, timeOut, hints[k])];
      pollfd := InsertAt(pollfd, openPort + |clients| - 1, PollFd(fd, IN, QUIET));
      world := Apply(world, s);
    }

    /** Removes the client's pipe, if it has one, and the client. */
    method HandleDisconnect(index: nat, ghost from: nat)
      requires Valid() && index < |clients| && Current(pollfd, from)
      modifies this
      ensures Valid() && world == Apply(old(world), Disconnect(index)) && Current(pollfd, from)
      ensures openPort + index < from ==> Current(pollfd, from - 1)
      ensures clients == RemoveAt(old(clients), index) && ClientRevs() == RemoveAt(old(ClientRevs()), index)
      ensures BehindKept(old(ListenRevs()), old(PipeEntries()))
    {
      hide Laid, Current, Inv, Apply;
      if clients[index].readPipe != -1 {
        ErasePipe(clients[index].readPipe, from);
      } else {
        NoPipeHalfClosed(clients, pollfd, world, index);
      }
      EraseClient(index, from);
    }

    /** The search for a pipe among the pipes, and its removal. */
    method ErasePipe(pipe: int, ghost from: nat)
      requires Laid(pollfd, world) && |clients| == |world.sessions| && |world.listen| == openPort
      requires Current(pollfd, from)
      modifies `pollfd
      ensures Laid(pollfd, world.(pipes := Without(world.pipes, pipe))) && Current(pollfd, from)
      ensures ClientRevs() == old(ClientRevs()) && BehindKept(old(ListenRevs()), old(PipeEntries()))
    {
      hide Laid, Current, RevsOf, Behind, Within, RemoveAt, Without;
      LaidLength(pollfd, world);
      WithinSelf(PipeEntries());
      var i := openPort + |clients|;
      while i < |pollfd|
        invariant openPort + |clients| <= i <= |pollfd|
        invariant forall k :: openPort + |clients| <= k < i ==> pollfd[k].fd != pipe
      {
        if pollfd[i].fd == pipe {
          LaidWithout(pollfd, world, pipe, i);
          CurrentRemove(pollfd, from, i);
          RevsRemoveTail(pollfd, openPort, |clients|, i);
          RevsRemoveTail(pollfd, 0, openPort, i);
          BehindRemove(pollfd, openPort + |clients|, i);
          pollfd := RemoveAt(pollfd, i);
          return;
        }
        i := i + 1;
      }
      LaidWithoutNone(pollfd, world, pipe);
    }

    /** Removes the client's entry and the client. */
    method EraseClient(index: nat, ghost from: nat)
      requires HalfClosed(clients, pollfd, world, index) && Current(pollfd, from)
      requires world.hints == hints && |world.listen| == openPort
      modifies this
      ensures Valid() && world == Apply(old(world), Disconnect(index)) && Current(pollfd, from)
      ensures openPort + index < from ==> Current(pollfd, from - 1)
      ensures clients == RemoveAt(old(clients), index) && ClientRevs() == RemoveAt(old(ClientRevs()), index)
      ensures PipeEntries() == old(PipeEntries()) && ListenRevs() == old(ListenRevs())
    {
      hide Laid, Inv, Current, RemoveAt, Apply, RevsOf, Behind;
      ShowsDisconnect(clients, pollfd, world, index);
      CurrentRemove(pollfd, from, openPort + index);
      RevsRemove(pollfd, openPort, |clients|, index);
      RevsRemoveTail(pollfd, 0, openPort, openPort + index);
      BehindRemove(pollfd, openPort + |clients|, openPort + index);
      if openPort + index < from {
        CurrentRemoveBefore(pollfd, from, openPort + index);
      }
      hide Shows, HalfClosed;
      pollfd := RemoveAt(pollfd, openPort + index);
      clients := RemoveAt(clients, index);
      world := Apply(world, Disconnect(index));
    }

    /** Gives client `ci` new fields and its socket new events. */
    method Update(ci: nat, c: Client, m: Mask, ghost s: Step, ghost from: nat)
      requires Valid() && Current(pollfd, from)
      requires ci < |clients| && Puts(world, s, ci, c, m) && c.fd == clients[ci].fd
      requires openPort + ci < from || m == world.sessions[ci].mask
      modifies this
      ensures Valid() && Current(pollfd, from)
      ensures ci < |old(world.sessions)| && world == Put(old(world), ci, c, m) && Takes(old(world), [s], world)
      ensures ClientRevs() == old(ClientRevs())
      ensures openPort + ci < |old(pollfd)|
      ensures clients == old(clients)[ci := c] && pollfd == SetEvents(old(pollfd), openPort + ci, m)
    {
      hide Laid, Inv, Current, Puts, RevsOf, Takes;
      Updates(clients, pollfd, world, s, ci, c, m, from);
      assert ci < |world.sessions| && Put(world, ci, c, m).hints == hints && Put(world, ci, c, m).listen == world.listen;
      RevsSet(pollfd, openPort, |clients|, openPort + ci, m);
      hide Shows, Put;
      clients := clients[ci := c];
      pollfd := SetEvents(pollfd, openPort + ci, m);
      world := Put(world, ci, c, m);
    }

    /** Removes every client that timed out. */
    method TimeoutCloser(now: int)
      requires Valid() && Current(pollfd, 0)
      modifies this
      ensures Valid() && Current(pollfd, 0) && Reaches(old(world), world)
      ensures Present() == Swept(old(Present()), now) && BehindKept(old(ListenRevs()), old(PipeEntries()))
    {
      hide Shows, Current, Apply, Legal, Swept, Joined, Front, Rest, RevsOf, Behind;
      ReachesSelf(world);
      var i := 0;
      SweptFrom(Present(), now);
      while i < |clients|
        invariant Valid() && Current(pollfd, 0) && Reaches(old(world), world)
        invariant i <= |clients| && Swept(old(Present()), now) == Joined(Front(Present(), i), Swept(Rest(Present(), i), now))
        invariant BehindKept(old(ListenRevs()), old(PipeEntries()))
        decreases |clients| - i
      {
        SweptStep(Present(), now, i);
        if Expired(clients[i], now) {
          DisconnectEnabled(clients, pollfd, world, i);
          ReachesStep(old(world), world, Disconnect(i));
          HandleDisconnect(i, 0);
        } else {
          i := i + 1;
        }
      }
      SweptAll(Present(), now);
    }

    /** How long poll may sleep. The time left is also stored with each client looked at. */
    method FindNextTimeout(now: int) returns (lower: int)
      requires Valid() && |clients| > 0
      modifies this
      ensures Valid() && Reaches(old(world), world)
      ensures SameButRemaining(old(clients), clients) && pollfd == old(pollfd)
      ensures IsNextTimeout(clients, now, lower)
    {
      hide Shows, Current, Legal, RevsOf, SetEvents, Put;
      ReachesSelf(world);
      for i := 0 to |clients|
        invariant Valid() && Reaches(old(world), world)
        invariant SameButRemaining(old(clients), clients) && pollfd == old(pollfd)
        invariant forall k :: 0 <= k < i ==> clients[k].remaining == Left(clients[k], now) > 0
      {
        var remaining := clients[i].timeOut - (now - clients[i].startTime);
        if remaining <= 0 {
          assert Expired(clients[i], now);
          return 0;
        }
        ghost var s := Remaining(i, remaining);
        ghost var before := world;
        PutEnabled(clients, pollfd, world, i);
        CurrentNone(pollfd);
        SetSame(pollfd, openPort + i);
        Update(i, clients[i].(remaining := remaining), pollfd[openPort + i].events, s, |pollfd|);
        TakesReaches(before, [s], world);
        ReachesTrans(old(world), before, world);
      }
      lower := clients[0].remaining;
      for i := 1 to |clients|
        invariant exists k :: 0 <= k < i && Left(clients[k], now) == lower
        invariant forall k :: 0 <= k < i ==> lower <= Left(clients[k], now)
      {
        if clients[i].remaining < lower {
          lower := clients[i].remaining;
        }
      }
    }

    /**
     * Removes clients whose socket reported an error, and nobody else. The loop stops at the number
     * of clients, as in the source, so that only entries below it are sure to be in order.
     */
    method HandlErrCloses()
      requires Valid() && Current(pollfd, 0)
      modifies this
      ensures Valid() && Current(pollfd, 0) && Reaches(old(world), world)
      ensures Present() == NoErrors(old(Present()), 0, openPort) && BehindKept(old(ListenRevs()), old(PipeEntries()))
      ensures Calm(clients, ClientRevs()) == Calm(old(clients), old(ClientRevs()))
      ensures forall k :: 0 <= k && openPort + k < |clients| ==> !Bad(ClientRevs()[k])
    {
      hide Current, Legal, Apply, Laid, Inv, Calm, RemoveAt, Behind;
      NoErrorsMeans(Present(), 0, openPort);
      ReachesSelf(world);
      var i := openPort;
      while i < |clients|
        invariant Valid() && Current(pollfd, 0) && Reaches(old(world), world) && openPort <= i
        invariant NoErrors(Present(), i - openPort, openPort) == NoErrors(old(Present()), 0, openPort)
        invariant BehindKept(old(ListenRevs()), old(PipeEntries()))
        decreases |clients| - i
      {
        ListenPolled(clients, pollfd, world);
        assert ClientRevs()[i - openPort] == pollfd[i].revents;
        if pollfd[i].revents.hup || pollfd[i].revents.err {
          ReachesStep(old(world), world, Disconnect(i - openPort));
          HandleDisconnect(i - openPort, 0);
        } else {
          i := i + 1;
        }
      }
    }

    /** `accept` on the listening socket at entry `k`. */
    method AcceptOne(k: nat, now: int) returns (ok: bool)
      requires Valid() && Current(pollfd, 0) && k < openPort
      modifies this
      ensures Valid() && Current(pollfd, 0) && Reaches(old(world), world)
      ensures openPort <= |old(pollfd)| <= |pollfd| && pollfd[..openPort] == old(pollfd)[..openPort]
      ensures ClientRevs() == old(ClientRevs()) + (if ok then [QUIET] else []) && PipeEntries() == old(PipeEntries())
      ensures !ok ==> clients == old(clients) && world == old(world)
      ensures ok ==>
                && |clients| > 0 && clients[..|clients| - 1] == old(clients)
                && var c := clients[|clients| - 1]; c == NewClient(c.fd, now, c.timeOut, hints[k])
    {
      hide Laid, Inv, Current, Legal, Apply;
      ListenPolled(clients, pollfd, world);
      ReachesSelf(world);
      var open := set k | 0 <= k < |pollfd| :: pollfd[k].fd;
      var clientFd := Os.NewDescriptor(open);
      if clientFd == -1 {
        return false;
      }
      var timeOut := Os.AnyInt();
      NewIsNew(clients, pollfd, world, clientFd);
      AcceptEnabled(clients, pollfd, world, k, clientFd, now, timeOut);
      StepReaches(world, Accept(k, clientFd, now, timeOut));
      hide Shows, Enabled;
      AddClients(clientFd, k, now, timeOut);
      return true;
    }

    /**
     * Accepts one client on every listening socket that is readable, and gives it the table entries
     * behind that socket. A failed accept ends the server.
     */
    method CheckForNewClients(now: int) returns (ok: bool)
      requires Valid() && Current(pollfd, 0)
      modifies this
      ensures Valid() && Current(pollfd, 0) && Reaches(old(world), world)
      ensures |old(clients)| <= |clients| && clients[..|old(clients)|] == old(clients)
      ensures openPort <= |old(pollfd)| && PipeEntries() == old(PipeEntries())
      ensures ClientRevs() == old(ClientRevs()) + Quiets(|clients| - |old(clients)|)
      ensures ok ==> Arrived(clients[|old(clients)|..], hints, old(ListenRevs()), now)
    {
      hide Laid, Inv, Current, Legal, Apply, Arrived, NewClient, Behind;
      ReachesSelf(world);
      ListenPolled(clients, pollfd, world);
      ghost var n := |clients|;
      ghost var revs := RevsOf(pollfd, 0, openPort);
      NobodyArrived(clients, hints, revs, now);
      QuietsNext(ClientRevs(), 0);
      assert |world.hints| == |world.listen|;
      for i := 0 to openPort
        invariant Valid() && Current(pollfd, 0) && Reaches(old(world), world)
        invariant n <= |clients| && clients[..n] == old(clients)
        invariant openPort <= |pollfd| && pollfd[..openPort] == old(pollfd)[..openPort]
        invariant Arrived(clients[n..], hints, revs[..i], now)
        invariant ClientRevs() == old(ClientRevs()) + Quiets(|clients| - n) && PipeEntries() == old(PipeEntries())
      {
        assert pollfd[i] == pollfd[..openPort][i] == old(pollfd)[i];
        assert revs[i] == pollfd[i].revents;
        ghost var cs, before := clients, world;
        QuietsNext(old(ClientRevs()), |clients| - n);
        if pollfd[i].revents.input {
          ok := AcceptOne(i, now);
          if !ok {
            return;
          }
          ReachesTrans(old(world), before, world);
        }
        ArrivedNext(cs, clients, n, hints, revs, i, now);
      }
      assert revs[..openPort] == revs;
      return true;
    }

    /**
     * The client that reads from a pipe. The fallback of the source, its first client, is never
     * taken for a polled pipe.
     */
    method GetClientReqCgi(pipeFd: int) returns (i: nat, fallback: bool)
      requires Valid()
      ensures !fallback ==> i < |clients| && clients[i].readPipe == pipeFd
      ensures pipeFd in world.pipes ==> !fallback
    {
      assert pipeFd in world.pipes ==> Owned(world.sessions, pipeFd);
      i := 0;
      while i < |clients|
        invariant i <= |clients|
        invariant forall k :: 0 <= k < i ==> clients[k].readPipe != pipeFd
      {
        if pipeFd == clients[i].readPipe {
          return i, false;
        }
        i := i + 1;
      }
      return 0, true;
    }

    /**
     * Reads from pipes that have data or were closed, and changes nobody else. At a script's end its
     * client waits for POLLOUT and its entry is erased; the entry that moves into its place is
     * skipped, as in the source.
     */
    method CgiEventsChecking() returns (ghost steps: seq<Step>)
      requires Valid() && Current(pollfd, 0)
      modifies this
      ensures Valid() && Current(pollfd, 0) && Takes(old(world), steps, world) && AllReadPipes(steps)
      ensures PipeTurns(old(world), old(world.pipes), old(pollfd), steps) && ClientRevs() == old(ClientRevs())
      ensures |clients| == |old(clients)|
      ensures forall k :: 0 <= k < |clients| ==>
                clients[k] == old(clients)[k] || Reported(old(pollfd), old(clients)[k].readPipe)
    {
      hide Shows, Laid, Inv, Current, Takes, Apply, Reported, RevsOf, PipeTurns, Continues, RemoveAt, Later, LeftBehind, Distinct;
      TakesNone(world);
      EntriesAre(clients, pollfd, world);
      ContinuesFirst(world, world.pipes, pollfd);
      LaterAll(world.pipes);
      steps := [];
      var i := openPort + |clients|;
      while i < |pollfd|
        invariant Valid() && Current(pollfd, 0) && Takes(old(world), steps, world) && AllReadPipes(steps)
        invariant openPort + |clients| <= i && |clients| == |old(clients)|
        invariant ClientRevs() == old(ClientRevs())
        invariant forall k :: 0 <= k < |clients| ==>
                    clients[k].readPipe == old(clients)[k].readPipe || clients[k].readPipe == -1
        invariant Continues(old(world), old(world.pipes), old(pollfd), steps, Later(world.pipes, i - openPort - |clients|))
        invariant forall k :: i <= k < |pollfd| ==> pollfd[k] in old(pollfd)
        invariant forall k :: 0 <= k < |clients| ==>
                    clients[k] == old(clients)[k] || Reported(old(pollfd), old(clients)[k].readPipe)
        decreases |pollfd| - i
      {
        EntriesAre(clients, pollfd, world);
        OnlyEntry(old(pollfd), pollfd[i]);
        ghost var left := Later(world.pipes, i - openPort - |clients|);
        LaterFirst(world.pipes, i - openPort - |clients|);
        if pollfd[i].revents.input || pollfd[i].revents.hup {
          TailPolled(clients, pollfd, world, i);
          var ci, fallback := GetClientReqCgi(pollfd[i].fd);
          ghost var cs, poll, before := clients, pollfd, world;
          var read := ReadFromCgi(ci, i);
          PipesAfterRead(cs, poll, before, ReadPipe(ci, read), i);
          ContinuesRead(old(world), old(world.pipes), old(pollfd), steps, left, ReadPipe(ci, read));
          LaterRemove(before.pipes, i - openPort - |clients|);
          TakesOne(before, ReadPipe(ci, read));
          TakesThen(old(world), steps, before, [ReadPipe(ci, read)], world);
          steps := steps + [ReadPipe(ci, read)];
        } else {
          ContinuesQuiet(old(world), old(world.pipes), old(pollfd), steps, left);
        }
        i := i + 1;
      }
      EntriesAre(clients, pollfd, world);
      LaterLast(world.pipes, i - openPort - |clients|);
      ContinuesLast(old(world), old(world.pipes), old(pollfd), steps);
    }

    /** `readChild` for client `ci`, whose pipe is entry `k`, and the bookkeeping at the script's end. */
    method ReadFromCgi(ci: nat, k: nat) returns (read: PipeRead)
      requires Valid() && Current(pollfd, 0)
      requires ci < |clients| && openPort + |clients| <= k < |pollfd| && pollfd[k].fd == clients[ci].readPipe
      modifies this
      ensures Valid() && Current(pollfd, 0)
      ensures Enabled(old(world), ReadPipe(ci, read)) && world == Apply(old(world), ReadPipe(ci, read))
      ensures clients == old(clients)[ci := AfterPipeRead(old(clients)[ci], read)]
      ensures |pollfd| <= |old(pollfd)| && forall j :: k < j < |pollfd| ==> pollfd[j] in old(pollfd)[k..]
      ensures ClientRevs() == old(ClientRevs())
    {
      hide Shows, Current, Legal, RevsOf;
      PutEnabled(clients, pollfd, world, ci);
      TailPolled(clients, pollfd, world, k);
      var n := Os.AnyInt();  // read
      if n > 0 {
        read := Bytes;
        Update(ci, clients[ci].(cgiState := CgiRunning), pollfd[openPort + ci].events, ReadPipe(ci, read), 0);
      } else {
        var output := Os.AnyInt();  // the length of the generated response
        read := if n == 0 then Eof(if output < 0 then 0 else output) else Broken(if output < 0 then 0 else output);
        EndScript(ci, k, read);
      }
    }

    /** The client's socket waits for POLLOUT, the pipe is closed and its entry erased. */
    method EndScript(ci: nat, k: nat, read: PipeRead)
      requires Valid() && Current(pollfd, 0) && read != Bytes && Enabled(world, ReadPipe(ci, read))
      requires ci < |clients| && openPort + |clients| <= k < |pollfd| && pollfd[k].fd == clients[ci].readPipe
      modifies this
      ensures Valid() && Current(pollfd, 0) && world == Apply(old(world), ReadPipe(ci, read))
      ensures clients == old(clients)[ci := AfterPipeRead(old(clients)[ci], read)]
      ensures pollfd == RemoveAt(SetEvents(old(pollfd), openPort + ci, OUT), k) && ClientRevs() == old(ClientRevs())
    {
      hide Shows;
      RevsSet(pollfd, openPort, |clients|, openPort + ci, OUT);
      RevsRemoveTail(SetEvents(pollfd, openPort + ci, OUT), openPort, |clients|, k);
      hide Laid, Inv, Current, Enabled, Apply, RemoveAt, Reported, RevsOf;
      ghost var s := ReadPipe(ci, read);
      ScriptEnds(clients, pollfd, world, s, k);
      hide AfterPipeRead;
      var fd := clients[ci].fd;
      clients := clients[ci := AfterPipeRead(clients[ci], read)];
      WakeClient(fd, ci);
      pollfd := RemoveAt(pollfd, k);
      world := Apply(world, s);
    }

    /** The loop over the clients' entries that sets the mask of the one for `fd`. */
    method WakeClient(fd: int, ghost ci: nat)
      requires ci < |clients| && openPort + |clients| <= |pollfd| && pollfd[openPort + ci].fd == fd
      requires forall k :: 0 <= k < |pollfd| && pollfd[k].fd == fd ==> k == openPort + ci
      modifies `pollfd
      ensures pollfd == SetEvents(old(pollfd), openPort + ci, OUT)
    {
      for k := openPort to openPort + |clients|
        invariant |pollfd| == |old(pollfd)|
        invariant pollfd == if openPort + ci < k then SetEvents(old(pollfd), openPort + ci, OUT) else old(pollfd)
      {
        if fd == pollfd[k].fd {
          pollfd := SetEvents(pollfd, k, OUT);
        }
      }
    }

    /** After the client at entry `i` was looked at: either it is gone, or the loop moves on. */
    ghost predicate Moved(was: seq<Revents>, gone: bool, i: nat)
      requires openPort <= i < openPort + |was|
      reads this
    {
      && Current(pollfd, if gone then i else i + 1)
      && ClientRevs() == if gone then RemoveAt(was, i - openPort) else was
    }

    /** `recv` and the request handler, on a readable socket: the client's new fields and the request's state. */
    method ReadRequest(ci: nat) returns (state: ClientState, c: Client, ghost got: Received)
      requires ci < |clients|
      ensures state == Disconnected || state == Reading || state == ReadingDone
      ensures state != Disconnected ==> c == AfterReceive(clients[ci], got)
      ensures state == ReadingDone <==> state != Disconnected && (got == Static || got == Cgi)
    {
      c := clients[ci];
      got := Failed;
      var rByte := Os.AnyInt();
      if rByte > 0 {
        if c.status == New {
          c := c.(reqStatus := Reading, status := Reading);
        }
        got := More;
        var complete := Os.AnyBool();
        var cgi := Os.AnyBool();
        if complete {
          c := c.(reqStatus := ReadingDone, status := if cgi then CgiReq else c.status, resStatus := StartSend);
          got := if cgi then Cgi else Static;
          return ReadingDone, c, got;
        }
        return Reading, c, got;
      } else if rByte == 0 {
        return Disconnected, c, got;
      } else {
        return Reading, c, got;
      }
    }

    /** The request part for the socket at entry `i`. `gone` says that the client was removed. */
    method HandleReadable(i: nat, now: int) returns (gone: bool, ghost steps: seq<Step>)
      requires Valid() && openPort <= i < openPort + |clients| && Current(pollfd, i) && i < |pollfd|
      requires pollfd[i].revents.input
      modifies this
      ensures Valid() && Takes(old(world), steps, world) && InputTurn(i - openPort, now, steps) && gone == Leaves(steps)
      ensures Moved(old(ClientRevs()), gone, i)
      ensures !gone ==> i < |pollfd| && pollfd[i].revents == old(pollfd[i].revents)
    {
      hide Laid, Inv, Current, RevsOf, Takes, Puts, RemoveAt;
      var ci := i - openPort;
      MaskOfReported(clients, pollfd, world, ci, i);
      CurrentLater(pollfd, i);
      hide Shows;
      var state, c, got := ReadRequest(ci);
      if state == Disconnected {
        ghost var s := Close(i);
        return true, [s];
      }
      var m := if state == ReadingDone then OUT else pollfd[i].events;
      steps := [Receive(ci, got, now)];
      PutsReceive(world, ci, got, now);
      Update(ci, c.(startTime := now), m, steps[0], i + 1);
      return false, steps;
    }

    /** The script runs: its pipe is polled behind all others, and the client's socket waits for nothing. */
    method PushPipe(ci: nat, pipe: int, now: int, timeOut: int, ghost s: Step)
      requires Valid() && Current(pollfd, openPort + ci + 1) && ci < |clients|
      requires s == StartCgi(ci, pipe, now, timeOut) && Enabled(world, s)
      modifies this
      ensures Valid() && world == Apply(old(world), s) && Current(pollfd, openPort + ci + 1)
      ensures ClientRevs() == old(ClientRevs())
    {
      hide Laid, Inv, Current, Apply, RevsOf, Enabled;
      StartsCgi(clients, pollfd, world, s, openPort + ci + 1);
      ListenPolled(clients, pollfd, world);
      RevsSet(pollfd, openPort, |clients|, openPort + ci, NONE);
      RevsAppend(SetEvents(pollfd, openPort + ci, NONE), openPort, |clients|, PollFd(pipe, IN, QUIET));
      hide Shows;
      clients := clients[ci := clients[ci].(alreadyExec := true, cgiState := CgiRunning, readPipe := pipe,
                                            startTime := now, timeOut := timeOut)];
      pollfd := SetEvents(pollfd, openPort + ci, NONE) + [PollFd(pipe, IN, QUIET)];
      world := Apply(world, s);
    }

    /** The connection waits for its next request. */
    method Reuse(i: nat) returns (ghost s: Step)
      requires Valid() && openPort <= i < openPort + |clients| && Current(pollfd, i + 1)
      requires Enabled(world, NextRequest(i - openPort, 0))
      modifies this
      ensures IsReuse(i - openPort, s)
      ensures Valid() && Takes(old(world), [s], world) && Moved(old(ClientRevs()), false, i)
    {
      var ci := i - openPort;
      var headerTimeOut := Os.AnyInt();
      s := NextRequest(ci, headerTimeOut);
      PutEnabled(clients, pollfd, world, ci);
      hide Shows, Takes, Current, RevsOf;
      var c := clients[ci].(status := New, alreadyExec := false);
      if clients[ci].status == CgiReq {
        c := c.(timeOut := headerTimeOut);
      } else {
        c := c.(reqStatus := New);
      }
      Update(ci, c, IN, s, i + 1);
    }

    /** The client at entry `i` is removed. */
    method Close(i: nat) returns (ghost s: Step)
      requires Valid() && openPort <= i < openPort + |clients| && Current(pollfd, i + 1)
      modifies this
      ensures s == Disconnect(i - openPort)
      ensures Valid() && Takes(old(world), [s], world) && Moved(old(ClientRevs()), true, i)
    {
      hide Shows, Takes, Current, RevsOf, Apply, Enabled, Behind, Within, RemoveAt;
      s := Disconnect(i - openPort);
      DisconnectEnabled(clients, pollfd, world, i - openPort);
      TakesOne(world, s);
      HandleDisconnect(i - openPort, i + 1);
    }

    /** `isCgiRequest` and what follows it: the script starts, or an error is answered. */
    method RunCgi(i: nat, now: int) returns (gone: bool, ghost steps: seq<Step>)
      requires Valid() && openPort <= i < openPort + |clients| && Current(pollfd, i + 1)
      requires HasMask(world, i - openPort, OUT)
      requires clients[i - openPort].status == CgiReq && !clients[i - openPort].alreadyExec
      modifies this
      ensures Valid() && Takes(old(world), steps, world) && gone == Leaves(steps)
      ensures ScriptTurn(old(clients[i - openPort]), i - openPort, now, steps)
      ensures Moved(old(ClientRevs()), gone, i)
    {
      hide Laid, Inv, Takes, Current, RevsOf, SetEvents, Legal, Puts;
      var ci := i - openPort;
      CycleOf(clients, pollfd, world, ci);
      hide Shows;
      var cgiTimeOut := Os.AnyInt();
      var open := set k | 0 <= k < |pollfd| :: pollfd[k].fd;
      var readPipe := Os.NewDescriptor(open);
      if readPipe != -1 {
        ghost var s := StartCgi(ci, readPipe, now, cgiTimeOut);
        NewIsNew(clients, pollfd, world, readPipe);
        TakesOne(world, s);
        PushPipe(ci, readPipe, now, cgiTimeOut, s);
        return false, [s];
      }
      ghost var s := FailCgi(ci, now, cgiTimeOut);
      PutsFailCgi(world, ci, now, cgiTimeOut);
      var c := clients[ci].(alreadyExec := false, cgiState := CgiFailed, readPipe := -1, startTime := now, timeOut := cgiTimeOut);
      Update(ci, c, OUT, s, i + 1);
      ghost var failed := world;
      var closed := Os.AnyBool();
      ghost var last: Step;
      if closed {
        last := Close(i);
      } else {
        last := Reuse(i);
      }
      TakesThen(old(world), [s], failed, [last], world);
      return closed, [s] + [last];
    }

    /** The response part for the socket at entry `i`. */
    method HandleWritable(i: nat, now: int) returns (gone: bool, ghost steps: seq<Step>)
      requires Valid() && openPort <= i < openPort + |clients| && Current(pollfd, i + 1)
      requires HasMask(world, i - openPort, OUT)
      modifies this
      ensures Valid() && Takes(old(world), steps, world) && gone == Leaves(steps)
      ensures OutputTurn(old(clients[i - openPort]), i - openPort, now, steps)
      ensures Moved(old(ClientRevs()), gone, i)
    {
      var ci := i - openPort;
      CycleOf(clients, pollfd, world, ci);
      hide Shows, Takes, Current, RevsOf, RemoveAt;
      ghost var s := Touch(ci, now);
      Update(ci, clients[ci].(startTime := now), OUT, s, i + 1);
      ghost var touched := world;
      CycleOf(clients, pollfd, world, ci);
      if clients[ci].status == CgiReq {
        if !clients[ci].alreadyExec {
          gone, steps := RunCgi(i, now);
        } else if clients[ci].cgiState == CgiDone {
          gone, steps := SendScriptOutput(i, now);
        } else {
          TakesNone(world);
          gone, steps := false, [];
        }
      } else {
        gone, steps := SendStatic(i, now);
      }
      TakesThen(old(world), [s], touched, steps, world);
      TouchedTurn(old(clients[ci]), ci, now, steps);
      steps := [s] + steps;
    }

    /** One buffer of a finished script's output is sent; when none is left the connection is used again. */
    method SendScriptOutput(i: nat, now: int) returns (gone: bool, ghost steps: seq<Step>)
      requires Valid() && openPort <= i < openPort + |clients| && Current(pollfd, i + 1)
      requires HasMask(world, i - openPort, OUT)
      requires var c := clients[i - openPort]; c.status == CgiReq && c.alreadyExec && c.cgiState == CgiDone
      modifies this
      ensures Valid() && Takes(old(world), steps, world) && gone == Leaves(steps)
      ensures ScriptTurn(old(clients[i - openPort]), i - openPort, now, steps)
      ensures Moved(old(ClientRevs()), gone, i)
    {
      var ci := i - openPort;
      CycleOf(clients, pollfd, world, ci);
      hide Shows, Takes, Current, RevsOf, RemoveAt;
      var c := clients[ci];
      ghost var s: Step;
      if c.output == 0 {
        s := Reuse(i);
        return false, [s];
      }
      var toSend := if c.output < CGI_SEND_BUFFER then c.output else CGI_SEND_BUFFER;
      var sendByte: int;
      sendByte :| -1 <= sendByte <= toSend;
      if sendByte > 0 {
        s := SendCgi(ci, sendByte, now);
        Update(ci, c.(output := c.output - sendByte, startTime := now), OUT, s, i + 1);
        return false, [s];
      }
      if sendByte == 0 {
        s := Close(i);
        return true, [s];
      }
      TakesNone(world);
      return false, [];
    }

    /** One buffer of a static response is prepared and sent; after the last one the connection is closed or used again. */
    method SendStatic(i: nat, now: int) returns (gone: bool, ghost steps: seq<Step>)
      requires Valid() && openPort <= i < openPort + |clients| && Current(pollfd, i + 1)
      requires HasMask(world, i - openPort, OUT) && clients[i - openPort].status != CgiReq
      modifies this
      ensures Valid() && Takes(old(world), steps, world) && gone == Leaves(steps)
      ensures StaticTurn(old(clients[i - openPort]), i - openPort, now, steps)
      ensures Moved(old(ClientRevs()), gone, i)
    {
      var ci := i - openPort;
      CycleOf(clients, pollfd, world, ci);
      hide Shows, Takes, Current, RevsOf, RemoveAt;
      if clients[ci].resStatus == WritingDone {
        gone, steps := FinishStatic(i);
        return;
      }
      var closing := Os.AnyBool();  // sendResponse
      var done := Os.AnyBool();
      var resStatus := if done then WritingDone else Writing;
      ghost var s := Respond(ci, resStatus, closing, now);
      PutsRespond(world, ci, resStatus, closing, now);
      hide Puts;
      Update(ci, clients[ci].(resStatus := resStatus, closing := closing, startTime := now), OUT, s, i + 1);
      ghost var sent := world;
      var byte := Os.AnyInt();  // send
      if byte == 0 {
        ghost var last := Close(i);
        gone, steps := true, [last];
      } else if byte > 0 && done {
        gone, steps := FinishStatic(i);
      } else {
        TakesNone(world);
        gone, steps := false, [];
      }
      TakesThen(old(world), [s], sent, steps, world);
      assert ([s] + steps)[1..] == steps;
      steps := [s] + steps;
    }

    /** What follows the last byte of a static response. */
    method FinishStatic(i: nat) returns (gone: bool, ghost steps: seq<Step>)
      requires Valid() && openPort <= i < openPort + |clients| && Current(pollfd, i + 1)
      requires HasMask(world, i - openPort, OUT)
      requires clients[i - openPort].status != CgiReq && clients[i - openPort].resStatus == WritingDone
      modifies this
      ensures Valid() && Takes(old(world), steps, world) && gone == Leaves(steps)
      ensures Finished(old(clients[i - openPort].closing), i - openPort, steps)
      ensures Moved(old(ClientRevs()), gone, i)
    {
      CycleOf(clients, pollfd, world, i - openPort);
      hide Shows, Takes, Current, RevsOf, RemoveAt;
      ghost var s: Step;
      if clients[i - openPort].closing {
        s := Close(i);
        return true, [s];
      }
      s := Reuse(i);
      return false, [s];
    }

    /** Both parts for the socket at entry `i`. */
    method HandleClient(i: nat, now: int) returns (gone: bool, ghost steps: seq<Step>)
      requires Valid() && openPort <= i < openPort + |clients| && Current(pollfd, i)
      modifies this
      ensures Valid() && Takes(old(world), steps, world) && gone == Leaves(steps)
      ensures ClientTurn(old(clients[i - openPort]), i - openPort, old(ClientRevs()[i - openPort]), now, steps)
      ensures Moved(old(ClientRevs()), gone, i)
    {
      hide Laid, Inv, Current, Takes, InputTurn, OutputTurn, RemoveAt;
      MaskOfReported(clients, pollfd, world, i - openPort, i);
      CurrentLater(pollfd, i);
      assert ClientRevs()[i - openPort] == pollfd[i].revents;
      hide Shows, RevsOf;
      gone, steps := false, [];
      TakesNone(world);
      if pollfd[i].revents.input {
        gone, steps := HandleReadable(i, now);
        if gone {
          return;
        }
      }
      if pollfd[i].revents.output {
        gone, steps := HandleWritable(i, now);
      }
    }

    /** The requests and responses of all clients; a removed client's place is looked at again. */
    method ClientsRound(now: int)
      requires Valid() && Current(pollfd, 0)
      modifies this
      ensures Valid() && Served(old(world), old(ClientRevs()), now, |clients|, world)
      ensures Reaches(old(world), world)
    {
      hide Laid, Inv, Takes, RevsOf, ClientTurn, Served, Legal, RemoveAt;
      ghost var revs := ClientRevs();
      ghost var k := 0;
      ServedNone(world, now);
      ReachesSelf(world);
      CurrentFrom(pollfd, openPort);
      hide Shows, Current;
      assert revs[..0] == [] && revs[0..] == revs;
      var i := openPort;
      while i < openPort + |clients|
        invariant openPort <= i <= openPort + |clients| && k <= |revs|
        invariant Valid() && Current(pollfd, i) && Reaches(old(world), world)
        invariant Served(old(world), revs[..k], now, i - openPort, world)
        invariant ClientRevs()[i - openPort..] == revs[k..]
        decreases openPort + |clients| - i
      {
        ghost var before, was := world, ClientRevs();
        SessionIs(clients, pollfd, world, i - openPort);
        ghost var at := i - openPort;
        var gone, steps := HandleClient(i, now);
        RoundStep(was, at, revs, k, gone);
        ServedNext(old(world), revs[..k], revs[k], now, at, before, steps, world);
        TakesReaches(before, steps, world);
        ReachesTrans(old(world), before, world);
        k := k + 1;
        if !gone {
          i := i + 1;
        }
      }
      assert revs[..k] == revs;
    }

    /** What `poll` reports of every entry: of what the system has to report, what it waits for, and hang-ups and errors. */
    method Poll(reports: seq<Revents>)
      requires Valid() && |reports| == |pollfd|
      modifies `pollfd
      ensures Valid() && Current(pollfd, 0) && pollfd == Polled(old(pollfd), reports)
    {
      ghost var was := pollfd;
      for k := 0 to |pollfd|
        invariant |pollfd| == |was|
        invariant forall j :: 0 <= j < |was| ==> pollfd[j] == if j < k then PolledEntry(was[j], reports[j]) else was[j]
      {
        pollfd := pollfd[k := PolledEntry(pollfd[k], reports[k])];
      }
      ShowsReport(clients, was, pollfd, world);
    }

    /** Waits for events until a client times out, and removes exactly the clients that did. */
    method PollingForEvents(before: int, now: int, reports: seq<Revents>) returns (ghost waiting: seq<Client>)
      requires Valid() && |reports| == |pollfd|
      modifies this
      ensures Valid() && Current(pollfd, 0) && Reaches(old(world), world)
      ensures SameButRemaining(old(clients), waiting)
      ensures var polled := Polled(old(pollfd), reports);
              && Present() == Swept(Roster(waiting, RevsOf(polled, openPort, |waiting|)), now)
              && BehindKept(RevsOf(polled, 0, openPort), polled)
    {
      hide Shows, Legal, Current, Swept, Polled, RevsOf;
      ReachesSelf(world);
      if |clients| > 0 {
        var timeOut := FindNextTimeout(before);
      }
      Poll(reports);
      waiting := clients;
      ghost var polled := world;
      TimeoutCloser(now);
      ReachesTrans(old(world), polled, world);
    }

    /** The first half of a turn: waiting, time-outs, errors, and new clients. */
    method Gather(before: int, now: int, reports: seq<Revents>) returns (ok: bool, ghost waiting: seq<Client>)
      requires Valid() && |reports| == |pollfd|
      modifies this
      ensures Valid() && Current(pollfd, 0) && Reaches(old(world), world)
      ensures SameButRemaining(old(clients), waiting) && openPort <= |hints|
      ensures ok ==>
                var polled := Polled(old(pollfd), reports);
                && Gathered(waiting, Present(), polled, openPort, hints, now) && Within(PipeEntries(), polled)
    {
      hide Shows, Legal, Current, Swept, NoErrors, RevsOf, Arrived, Behind, Polled;
      ListenPolled(clients, pollfd, world);
      waiting := PollingForEvents(before, now, reports);
      ghost var a := world;
      HandlErrCloses();
      ghost var b := world;
      ReachesTrans(old(world), a, b);
      ok := CheckForNewClients(now);
      ReachesTrans(old(world), b, world);
    }

    /**
     * One turn of the main loop, in the order of the source. `reports` is what the system has to
     * report to `poll`; it decides who is accepted, closed, read from and served.
     */
    method Turn(before: int, now: int, reports: seq<Revents>) returns (ok: bool, ghost t: Stages)
      requires Valid() && |reports| == |pollfd|
      modifies this
      ensures Valid() && Reaches(old(world), world)
      ensures SameButRemaining(old(clients), t.waiting) && openPort <= |hints|
      ensures ok ==>
                && Reaches(old(world), t.present)
                && IsTurn(t, Polled(old(pollfd), reports), openPort, hints, now, world)
    {
      hide Shows, Legal, Current, Served, Gathered, RevsOf, PipeTurns, Takes, Behind, Polled;
      PolledIsDistinct(clients, pollfd, world, reports);
      ghost var polled := Polled(pollfd, reports);
      ghost var waiting;
      ok, waiting := Gather(before, now, reports);
      ghost var c, steps, revs := world, [], ClientRevs();
      t := Stages(waiting, c, steps, c, revs);
      if !ok {
        return;
      }
      ClientsAre(clients, pollfd, c);
      TakesNone(c);
      PipesReported(clients, pollfd, c, polled);
      NoPipes(clients, pollfd, c, polled);
      if openPort + |clients| < |pollfd| {
        ghost var poll := pollfd;
        steps := CgiEventsChecking();
        PipeTurnsSame(c, c.pipes, poll, polled, steps);
      }
      ListenPolled(clients, pollfd, world);
      ghost var start := world;
      t := Stages(waiting, c, steps, start, revs);
      TakesReaches(c, steps, start);
      ReachesTrans(old(world), c, start);
      ClientsRound(now);
      ListenPolled(clients, pollfd, world);
      ReachesTrans(old(world), start, world);
    }

    /** `turns` turns of the main loop: whatever the system answers, the server stays in a reachable state, hence a safe one. */
    method RunCoreLoop(turns: nat)
      requires Valid()
      modifies this
      ensures Valid() && Reaches(old(world), world) && Inv(world)
    {
      ReachesSelf(world);
      var now := Os.AnyInt();
      for t := 0 to turns
        invariant Valid() && Reaches(old(world), world)
      {
        ghost var w := world;
        var later := Os.AnyInt();
        var reports := AnyReports(|pollfd|);
        var ok, t := Turn(now, later, reports);
        ReachesTrans(old(world), w, world);
        if !ok {
          return;
        }
        now := later;
      }
    }
  }

  /** Whatever the system has to report. */
  method AnyReports(n: nat) returns (reports: seq<Revents>)
    ensures |reports| == n
  {
    reports := [];
    while |reports| < n
      invariant |reports| <= n
    {
      var input := Os.AnyBool();
      var output := Os.AnyBool();
      var hup := Os.AnyBool();
      var err := Os.AnyBool();
      reports := reports + [Revents(input, output, hup, err)];
    }
  }
}
