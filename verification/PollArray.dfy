/**
 * The poll array and the client vector as the server keeps them, against the three separate parts
 * of `PollLayout`: what each insertion, removal and update in the flat vectors does to the parts.
 */
module PollArray {
  import opened PollFds
  import opened PollLayout
  import opened Turns

  /** What the server decides about an entry of the poll array. */
  datatype Slot = Slot(fd: int, events: Mask)

  function Slots(poll: seq<PollFd>): (slots: seq<Slot>)
    ensures |slots| == |poll| && forall k :: 0 <= k < |poll| ==> slots[k] == Slot(poll[k].fd, poll[k].events)
  {
    seq(|poll|, k requires 0 <= k < |poll| => Slot(poll[k].fd, poll[k].events))
  }

  function InSlots(fds: seq<int>): (slots: seq<Slot>)
    ensures |slots| == |fds| && forall k :: 0 <= k < |fds| ==> slots[k] == Slot(fds[k], IN)
  {
    seq(|fds|, k requires 0 <= k < |fds| => Slot(fds[k], IN))
  }

  function SessionSlots(ss: seq<Session>): (slots: seq<Slot>)
    ensures |slots| == |ss| && forall k :: 0 <= k < |ss| ==> slots[k] == Slot(ss[k].client.fd, ss[k].mask)
  {
    seq(|ss|, k requires 0 <= k < |ss| => Slot(ss[k].client.fd, ss[k].mask))
  }

  function ClientsOf(ss: seq<Session>): (cs: seq<Client>)
    ensures |cs| == |ss| && forall k :: 0 <= k < |ss| ==> cs[k] == ss[k].client
  {
    seq(|ss|, k requires 0 <= k < |ss| => ss[k].client)
  }

  /** The poll array is the listening sockets, then the clients in order, then the pipes. */
  predicate Laid(poll: seq<PollFd>, w: World) {
    Slots(poll) == InSlots(w.listen) + SessionSlots(w.sessions) + InSlots(w.pipes)
  }

  /** The two vectors show the safe state `w`. */
  predicate Shows(clients: seq<Client>, poll: seq<PollFd>, w: World) {
    Inv(w) && clients == ClientsOf(w.sessions) && Laid(poll, w)
  }

  /** From `from` on, nothing was reported that is not still asked for. */
  predicate Current(poll: seq<PollFd>, from: nat) {
    forall k :: from <= k < |poll| ==>
      poll[k].Reported()
  }

  // ---------------------------------------------------------------- the array, step by step

  lemma InsertAtMiddle<T>(a: seq<T>, b: seq<T>, c: seq<T>, x: T)
    ensures InsertAt(a + b + c, |a| + |b|, x) == a + (b + [x]) + c
  {
  }

  lemma RemoveAtEnd<T>(a: seq<T>, b: seq<T>, c: seq<T>, i: nat)
    requires i < |c|
    ensures RemoveAt(a + b + c, |a| + |b| + i) == a + b + RemoveAt(c, i)
  {
  }

  lemma SetMiddle<T>(a: seq<T>, b: seq<T>, c: seq<T>, i: nat, x: T)
    requires i < |b|
    ensures (a + b + c)[|a| + i := x] == a + b[i := x] + c
  {
  }

  lemma SlotsInsert(poll: seq<PollFd>, i: nat, x: PollFd)
    requires i <= |poll|
    ensures Slots(InsertAt(poll, i, x)) == InsertAt(Slots(poll), i, Slot(x.fd, x.events))
  {
  }

  lemma SessionSlotsAppend(ss: seq<Session>, c: Client)
    ensures SessionSlots(ss + [Session(c, IN)]) == SessionSlots(ss) + [Slot(c.fd, IN)]
  {
  }

  lemma LaidLength(poll: seq<PollFd>, w: World)
    requires Laid(poll, w)
    ensures |poll| == |w.listen| + |w.sessions| + |w.pipes|
  {
    assert |Slots(poll)| == |poll|;
  }

  lemma LaidInsert(poll: seq<PollFd>, w: World, c: Client)
    requires Laid(poll, w) && |w.listen| + |w.sessions| <= |poll|
    ensures Laid(InsertAt(poll, |w.listen| + |w.sessions|, PollFd(c.fd, IN, QUIET)),
                 w.(sessions := w.sessions + [Session(c, IN)]))
  {
    hide InsertAt, Slots, InSlots, SessionSlots;
    SlotsInsert(poll, |w.listen| + |w.sessions|, PollFd(c.fd, IN, QUIET));
    SessionSlotsAppend(w.sessions, c);
    InsertAtMiddle(InSlots(w.listen), SessionSlots(w.sessions), InSlots(w.pipes), Slot(c.fd, IN));
  }

  lemma LaidAppend(poll: seq<PollFd>, w: World, pipe: int)
    requires Laid(poll, w)
    ensures Laid(poll + [PollFd(pipe, IN, QUIET)], w.(pipes := w.pipes + [pipe]))
  {
    assert Slots(poll + [PollFd(pipe, IN, QUIET)]) == Slots(poll) + [Slot(pipe, IN)];
    assert InSlots(w.pipes + [pipe]) == InSlots(w.pipes) + [Slot(pipe, IN)];
  }

  function SetEvents(poll: seq<PollFd>, k: nat, m: Mask): seq<PollFd>
    requires k < |poll|
  {
    poll[k := poll[k].(events := m)]
  }

  lemma LaidPut(poll: seq<PollFd>, w: World, i: nat, c: Client, m: Mask)
    requires Laid(poll, w) && i < |w.sessions| && c.fd == w.sessions[i].client.fd
    ensures |w.listen| + i < |poll|
    ensures Laid(SetEvents(poll, |w.listen| + i, m), Put(w, i, c, m))
  {
    var k, a, b := |w.listen| + i, InSlots(w.listen), SessionSlots(w.sessions);
    SetMiddle(a, b, InSlots(w.pipes), i, Slot(c.fd, m));
    assert Slots(poll)[k] == b[i];
    assert Slots(SetEvents(poll, k, m)) == Slots(poll)[k := Slot(c.fd, m)];
    assert SessionSlots(w.sessions[i := Session(c, m)]) == b[i := Slot(c.fd, m)];
  }

  lemma SlotsRemove(poll: seq<PollFd>, i: nat)
    requires i < |poll|
    ensures Slots(RemoveAt(poll, i)) == RemoveAt(Slots(poll), i)
  {
  }

  lemma LaidRemoveClient(poll: seq<PollFd>, w: World, i: nat)
    requires Laid(poll, w) && i < |w.sessions|
    ensures |w.listen| + i < |poll|
    ensures Laid(RemoveAt(poll, |w.listen| + i), w.(sessions := RemoveAt(w.sessions, i)))
  {
    RemoveAtMiddle(InSlots(w.listen), SessionSlots(w.sessions), InSlots(w.pipes), i);
    SlotsRemove(poll, |w.listen| + i);
    assert SessionSlots(RemoveAt(w.sessions, i)) == RemoveAt(SessionSlots(w.sessions), i);
  }

  lemma LaidRemovePipe(poll: seq<PollFd>, w: World, j: nat)
    requires Laid(poll, w) && j < |w.pipes|
    ensures |w.listen| + |w.sessions| + j < |poll|
    ensures Laid(RemoveAt(poll, |w.listen| + |w.sessions| + j), w.(pipes := RemoveAt(w.pipes, j)))
  {
    var n, a, b := |w.listen| + |w.sessions|, InSlots(w.listen), SessionSlots(w.sessions);
    assert |a| + |b| == n && n + j < |Slots(poll)| == |poll|;
    assert InSlots(RemoveAt(w.pipes, j)) == RemoveAt(InSlots(w.pipes), j);
    hide RemoveAt, InSlots, SessionSlots, Slots;
    RemoveAtEnd(a, b, InSlots(w.pipes), j);
    SlotsRemove(poll, n + j);
  }

  /** The first entry behind the clients for `pipe` is the one to remove. */
  lemma LaidWithout(poll: seq<PollFd>, w: World, pipe: int, i: nat)
    requires Laid(poll, w) && |w.listen| + |w.sessions| <= i < |poll| && poll[i].fd == pipe
    requires forall k :: |w.listen| + |w.sessions| <= k < i ==> poll[k].fd != pipe
    ensures Laid(RemoveAt(poll, i), w.(pipes := Without(w.pipes, pipe)))
  {
    var n := |w.listen| + |w.sessions|;
    LaidMeans(poll, w);
    forall j | 0 <= j < i - n ensures w.pipes[j] != pipe {
      assert poll[n + j].fd != pipe;
    }
    assert pipe !in w.pipes[..i - n];
    IndexOfIs(w.pipes, pipe, i - n);
    hide RemoveAt;
    LaidRemovePipe(poll, w, i - n);
  }

  lemma LaidWithoutNone(poll: seq<PollFd>, w: World, pipe: int)
    requires Laid(poll, w)
    requires forall k :: |w.listen| + |w.sessions| <= k < |poll| ==> poll[k].fd != pipe
    ensures Laid(poll, w.(pipes := Without(w.pipes, pipe)))
  {
    LaidMeans(poll, w);
    forall j | 0 <= j < |w.pipes| ensures w.pipes[j] != pipe {
      assert poll[|w.listen| + |w.sessions| + j].fd != pipe;
    }
  }

  /** The layout, entry by entry. */
  lemma LaidMeans(poll: seq<PollFd>, w: World)
    requires Laid(poll, w)
    ensures |poll| == |w.listen| + |w.sessions| + |w.pipes|
    ensures forall k :: 0 <= k < |w.listen| ==> poll[k].fd == w.listen[k] && poll[k].events == IN
    ensures forall k :: |w.listen| <= k < |w.listen| + |w.sessions| ==>
              var s := w.sessions[k - |w.listen|]; poll[k].fd == s.client.fd && poll[k].events == s.mask
    ensures forall k :: |w.listen| + |w.sessions| <= k < |poll| ==>
              poll[k].fd == w.pipes[k - |w.listen| - |w.sessions|] && poll[k].events == IN
  {
    assert |Slots(poll)| == |poll|;
    forall k | 0 <= k < |poll| ensures Slots(poll)[k] == Slot(poll[k].fd, poll[k].events) {
    }
  }

  lemma CurrentRemove(poll: seq<PollFd>, from: nat, i: nat)
    requires Current(poll, from) && i < |poll|
    ensures Current(RemoveAt(poll, i), from)
  {
    var r := RemoveAt(poll, i);
    forall k | from <= k < |r|
      ensures r[k].Reported()
    {
      assert r[k] == poll[if k < i then k else k + 1];
    }
  }

  lemma CurrentInsert(poll: seq<PollFd>, i: nat, fd: int)
    requires Current(poll, 0) && i <= |poll|
    ensures Current(InsertAt(poll, i, PollFd(fd, IN, QUIET)), 0)
  {
    var r := InsertAt(poll, i, PollFd(fd, IN, QUIET));
    forall k | 0 <= k < |r|
      ensures r[k].Reported()
    {
      assert r[k] == if k < i then poll[k] else if k == i then PollFd(fd, IN, QUIET) else poll[k - 1];
    }
  }

  lemma {:induction false} IndexOfIs(s: seq<int>, p: int, r: nat)
    requires r < |s| && s[r] == p && p !in s[..r]
    ensures IndexOf(s, p) == r
  {
    if r > 0 {
      assert s[..r][0] == s[0] && s[1..][..r - 1] == s[..r][1..];
      IndexOfIs(s[1..], p, r - 1);
    }
  }

  /** Every open descriptor is polled. */
  lemma OpenIsPolled(poll: seq<PollFd>, w: World, p: int)
    requires Laid(poll, w) && p in OpenFds(w)
    ensures exists k :: 0 <= k < |poll| && poll[k].fd == p
  {
    var k :| 0 <= k < |OpenFds(w)| && OpenFds(w)[k] == p;
    LaidMeans(poll, w);
    assert poll[k].fd == p;
  }

  // ---------------------------------------------------------------- steps on both vectors

  lemma ShowsAccept(clients: seq<Client>, poll: seq<PollFd>, w: World, s: Step)
    requires Shows(clients, poll, w) && s.Accept? && Enabled(w, s)
    ensures |w.listen| + |clients| <= |poll|
    ensures Shows(clients + [NewClient(s.fd, s.now, s.timeOut, w.hints[s.k])],
                  InsertAt(poll, |w.listen| + |clients|, PollFd(s.fd, IN, QUIET)), Apply(w, s))
  {
    var c := NewClient(s.fd, s.now, s.timeOut, w.hints[s.k]);
    StepKeeps(w, s);
    LaidLength(poll, w);
    LaidInsert(poll, w, c);
    hide Laid, Inv;
    assert ClientsOf(w.sessions + [Session(c, IN)]) == clients + [c];
  }

  /** Between the removal of a client's pipe and that of the client. */
  predicate HalfClosed(clients: seq<Client>, poll: seq<PollFd>, w: World, i: nat) {
    && Inv(w) && clients == ClientsOf(w.sessions) && i < |clients|
    && Laid(poll, w.(pipes := Without(w.pipes, clients[i].readPipe)))
  }

  /** A client without a pipe has none to remove: -1 is never polled. */
  lemma NoPipeHalfClosed(clients: seq<Client>, poll: seq<PollFd>, w: World, i: nat)
    requires Shows(clients, poll, w) && i < |clients| && clients[i].readPipe == -1
    ensures HalfClosed(clients, poll, w, i)
  {
    DistinctParts(w);
  }

  lemma ShowsDisconnect(clients: seq<Client>, poll: seq<PollFd>, w: World, i: nat)
    requires HalfClosed(clients, poll, w, i)
    ensures |w.listen| + i < |poll|
    ensures Shows(RemoveAt(clients, i), RemoveAt(poll, |w.listen| + i), Apply(w, Disconnect(i)))
  {
    StepKeeps(w, Disconnect(i));
    LaidRemoveClient(poll, w.(pipes := Without(w.pipes, clients[i].readPipe)), i);
    hide Laid, Inv;
    assert ClientsOf(RemoveAt(w.sessions, i)) == RemoveAt(clients, i);
  }

  /** A step that changes one client and its mask. */
  lemma ShowsPut(clients: seq<Client>, poll: seq<PollFd>, w: World, s: Step, i: nat, c: Client, m: Mask)
    requires Shows(clients, poll, w) && Enabled(w, s)
    requires i < |clients| && Apply(w, s) == Put(w, i, c, m) && c.fd == clients[i].fd
    ensures |w.listen| + i < |poll|
    ensures Shows(clients[i := c], SetEvents(poll, |w.listen| + i, m), Apply(w, s))
  {
    StepKeeps(w, s);
    LaidPut(poll, w, i, c, m);
    hide Laid, Inv;
    assert ClientsOf(w.sessions[i := Session(c, m)]) == clients[i := c];
  }

  lemma ShowsStartCgi(clients: seq<Client>, poll: seq<PollFd>, w: World, s: Step)
    requires Shows(clients, poll, w) && s.StartCgi? && Enabled(w, s)
    ensures |w.listen| + s.i < |poll|
    ensures var v := Apply(w, s);
            Shows(clients[s.i := v.sessions[s.i].client],
                  SetEvents(poll, |w.listen| + s.i, NONE) + [PollFd(s.pipe, IN, QUIET)], v)
  {
    StepKeeps(w, s);
    var c := Apply(w, s).sessions[s.i].client;
    LaidPut(poll, w, s.i, c, NONE);
    LaidAppend(SetEvents(poll, |w.listen| + s.i, NONE), Put(w, s.i, c, NONE), s.pipe);
    hide Laid, Inv;
    assert ClientsOf(w.sessions[s.i := Session(c, NONE)]) == clients[s.i := c];
  }

  /** The end of a script: its client waits for POLLOUT, and its pipe's entry, at `k`, goes. */
  lemma ShowsScriptEnd(clients: seq<Client>, poll: seq<PollFd>, w: World, s: Step, k: nat)
    requires Shows(clients, poll, w) && s.ReadPipe? && Enabled(w, s) && s.read != Bytes
    requires |w.listen| + |clients| <= k < |poll| && poll[k].fd == clients[s.i].readPipe
    ensures var v := Apply(w, s);
            Shows(clients[s.i := v.sessions[s.i].client],
                  RemoveAt(SetEvents(poll, |w.listen| + s.i, OUT), k), v)
  {
    hide Enabled, Apply, Inv, Laid, SetEvents, RemoveAt, AfterPipeRead;
    StepKeeps(w, s);
    ScriptEndIs(w, s);
    ShowsEnd(clients, poll, w, s.i, AfterPipeRead(w.sessions[s.i].client, s.read), w.sessions[s.i].client.readPipe, k);
  }

  lemma ShowsEnd(clients: seq<Client>, poll: seq<PollFd>, w: World, i: nat, c: Client, pipe: int, k: nat)
    requires Shows(clients, poll, w) && i < |w.sessions| && c.fd == w.sessions[i].client.fd
    requires |w.listen| + |clients| <= k < |poll| && poll[k].fd == pipe
    requires var v := Put(w, i, c, OUT); Inv(v.(pipes := Without(v.pipes, pipe)))
    ensures |w.listen| + i < |poll| && i < |clients|
    ensures var v := Put(w, i, c, OUT);
            Shows(clients[i := c], RemoveAt(SetEvents(poll, |w.listen| + i, OUT), k), v.(pipes := Without(v.pipes, pipe)))
  {
    hide Laid, RemoveAt, Without, SetEvents, Inv;
    LaidMeans(poll, w);
    InvDistinct(w);
    PollIsDistinct(poll, w);
    LaidScriptEnd(poll, w, i, c, pipe, k);
    assert ClientsOf(w.sessions[i := Session(c, OUT)]) == clients[i := c];
  }

  lemma InvDistinct(w: World)
    requires Inv(w)
    ensures Distinct(OpenFds(w))
  {
  }

  lemma ScriptEndIs(w: World, s: Step)
    requires s.ReadPipe? && Enabled(w, s) && s.read != Bytes
    ensures s.i < |w.sessions|
    ensures var c, v := w.sessions[s.i].client, Put(w, s.i, AfterPipeRead(w.sessions[s.i].client, s.read), OUT);
            Apply(w, s) == v.(pipes := Without(w.pipes, c.readPipe))
            && AfterPipeRead(c, s.read).fd == c.fd
  {
  }

  /** The mask of a client's entry is set and the only entry of its pipe goes. */
  lemma LaidScriptEnd(poll: seq<PollFd>, w: World, i: nat, c: Client, pipe: int, k: nat)
    requires Laid(poll, w) && i < |w.sessions| && c.fd == w.sessions[i].client.fd
    requires |w.listen| + |w.sessions| <= k < |poll| && poll[k].fd == pipe
    requires forall a, b :: 0 <= a < b < |poll| ==> poll[a].fd != poll[b].fd
    ensures |w.listen| + i < |poll| && k < |SetEvents(poll, |w.listen| + i, OUT)|
    ensures var v := Put(w, i, c, OUT);
            Laid(RemoveAt(SetEvents(poll, |w.listen| + i, OUT), k), v.(pipes := Without(v.pipes, pipe)))
  {
    hide Laid, RemoveAt, Without;
    LaidMeans(poll, w);
    LaidPut(poll, w, i, c, OUT);
    var p := SetEvents(poll, |w.listen| + i, OUT);
    assert SameFds(p, poll);
    LaidWithout(p, Put(w, i, c, OUT), pipe, k);
  }

  predicate SameFds(p: seq<PollFd>, q: seq<PollFd>) {
    |p| == |q| && forall k :: 0 <= k < |p| ==> p[k].fd == q[k].fd
  }

  /** No two entries are for the same descriptor. */
  lemma PollIsDistinct(poll: seq<PollFd>, w: World)
    requires Laid(poll, w) && Distinct(OpenFds(w))
    ensures forall a, b :: 0 <= a < b < |poll| ==> poll[a].fd != poll[b].fd
  {
    LaidMeans(poll, w);
    forall k | 0 <= k < |poll| ensures poll[k].fd == OpenFds(w)[k] {
    }
  }

  lemma CurrentSet(poll: seq<PollFd>, k: nat, m: Mask, from: nat)
    requires Current(poll, from) && k < |poll| && (k < from || m == poll[k].events)
    ensures Current(SetEvents(poll, k, m), from)
  {
  }

  lemma DisconnectEnabled(clients: seq<Client>, poll: seq<PollFd>, w: World, i: nat)
    requires Shows(clients, poll, w) && i < |clients|
    ensures Enabled(w, Disconnect(i))
  {
  }

  /** The places a client's slot and fields are read from. */
  lemma PutEnabled(clients: seq<Client>, poll: seq<PollFd>, w: World, i: nat)
    requires Shows(clients, poll, w) && i < |clients|
    ensures i < |w.sessions| && w.sessions[i].client == clients[i]
    ensures |w.listen| + i < |poll| && poll[|w.listen| + i].events == w.sessions[i].mask
    ensures ClientOk(clients[i], w.sessions[i].mask)
  {
    LaidMeans(poll, w);
    assert ClientOk(w.sessions[i].client, w.sessions[i].mask);
  }

  lemma ListenPolled(clients: seq<Client>, poll: seq<PollFd>, w: World)
    requires Shows(clients, poll, w)
    ensures |w.listen| + |clients| <= |poll| && |clients| == |w.sessions| && |w.hints| == |w.listen|
  {
    LaidLength(poll, w);
  }

  /** A descriptor that is not polled is not open. */
  lemma NewIsNew(clients: seq<Client>, poll: seq<PollFd>, w: World, fd: int)
    requires Shows(clients, poll, w) && fd >= 0 && forall k :: 0 <= k < |poll| ==> poll[k].fd != fd
    ensures NewFd(w, fd)
  {
    if fd in OpenFds(w) {
      OpenIsPolled(poll, w, fd);
    }
  }

  lemma AcceptEnabled(clients: seq<Client>, poll: seq<PollFd>, w: World, k: nat, fd: int, now: int, timeOut: int)
    requires Shows(clients, poll, w) && k < |w.listen| && NewFd(w, fd)
    ensures Enabled(w, Accept(k, fd, now, timeOut))
  {
  }

  /** An entry behind the clients is a pipe. */
  lemma TailPolled(clients: seq<Client>, poll: seq<PollFd>, w: World, k: nat)
    requires Shows(clients, poll, w) && |w.listen| + |clients| <= k < |poll|
    ensures poll[k].fd in w.pipes && poll[k].fd != -1
  {
    LaidMeans(poll, w);
    DistinctParts(w);
    assert poll[k].fd == w.pipes[k - |w.listen| - |w.sessions|];
  }

  /** Waking a client whose script runs leaves nothing reported that is not asked for. */
  lemma CurrentWake(clients: seq<Client>, poll: seq<PollFd>, w: World, i: nat)
    requires Shows(clients, poll, w) && Current(poll, 0) && i < |clients| && clients[i].readPipe != -1
    ensures |w.listen| + i < |poll|
    ensures Current(SetEvents(poll, |w.listen| + i, OUT), 0)
  {
    PutEnabled(clients, poll, w, i);
  }

  /** A client's descriptor has one entry. */
  lemma OnlySocket(clients: seq<Client>, poll: seq<PollFd>, w: World, i: nat)
    requires Shows(clients, poll, w) && i < |clients|
    ensures |w.listen| + |clients| <= |poll| && poll[|w.listen| + i].fd == clients[i].fd
    ensures forall k :: 0 <= k < |poll| && poll[k].fd == clients[i].fd ==> k == |w.listen| + i
  {
    LaidMeans(poll, w);
    PollIsDistinct(poll, w);
    assert poll[|w.listen| + i].fd == w.sessions[i].client.fd;
  }

  lemma ScriptEnds(clients: seq<Client>, poll: seq<PollFd>, w: World, s: Step, k: nat)
    requires Shows(clients, poll, w) && Current(poll, 0)
    requires s.ReadPipe? && Enabled(w, s) && s.read != Bytes && s.i < |clients|
    requires |w.listen| + |clients| <= k < |poll| && poll[k].fd == clients[s.i].readPipe
    ensures var p := RemoveAt(SetEvents(poll, |w.listen| + s.i, OUT), k);
            Shows(clients[s.i := AfterPipeRead(clients[s.i], s.read)], p, Apply(w, s)) && Current(p, 0)
    ensures poll[|w.listen| + s.i].fd == clients[s.i].fd
    ensures forall j :: 0 <= j < |poll| && poll[j].fd == clients[s.i].fd ==> j == |w.listen| + s.i
  {
    hide Enabled, Apply, Inv, Laid, AfterPipeRead;
    ScriptEndIs(w, s);
    TailPolled(clients, poll, w, k);
    ShowsScriptEnd(clients, poll, w, s, k);
    CurrentWake(clients, poll, w, s.i);
    CurrentRemove(SetEvents(poll, |w.listen| + s.i, OUT), 0, k);
    OnlySocket(clients, poll, w, s.i);
    hide Shows, Current;
  }

  lemma Updates(clients: seq<Client>, poll: seq<PollFd>, w: World, s: Step, i: nat, c: Client, m: Mask, from: nat)
    requires Shows(clients, poll, w) && Current(poll, from) && Puts(w, s, i, c, m)
    requires i < |clients| && c.fd == clients[i].fd
    requires |w.listen| + i < from || m == w.sessions[i].mask
    ensures |w.listen| + i < |poll|
    ensures Shows(clients[i := c], SetEvents(poll, |w.listen| + i, m), Put(w, i, c, m))
    ensures Takes(w, [s], Put(w, i, c, m))
    ensures Current(SetEvents(poll, |w.listen| + i, m), from)
  {
    PutEnabled(clients, poll, w, i);
    ShowsPut(clients, poll, w, s, i, c, m);
    PutsTakes(w, s, i, c, m);
    hide Shows, Enabled, Apply, Takes;
    CurrentSet(poll, |w.listen| + i, m, from);
  }

  lemma CurrentLater(poll: seq<PollFd>, from: nat)
    requires Current(poll, from)
    ensures Current(poll, from + 1)
  {
  }

  /** Entries behind the removed one move one place down. */
  lemma CurrentRemoveBefore(poll: seq<PollFd>, from: nat, i: nat)
    requires Current(poll, from) && i < |poll| && i < from
    ensures Current(RemoveAt(poll, i), from - 1)
  {
    var r := RemoveAt(poll, i);
    forall k | from - 1 <= k < |r|
      ensures r[k].Reported()
    {
      assert r[k] == poll[k + 1];
    }
  }

  /** What a client's socket reports tells what it waits for: POLLIN or POLLOUT alone. */
  lemma MaskOfReported(clients: seq<Client>, poll: seq<PollFd>, w: World, i: nat, from: nat)
    requires Shows(clients, poll, w) && i < |clients| && Current(poll, from) && from <= |w.listen| + i
    ensures |w.listen| + i < |poll| && i < |w.sessions| && w.sessions[i].client == clients[i]
    ensures poll[|w.listen| + i].events == w.sessions[i].mask
    ensures poll[|w.listen| + i].revents.input ==> HasMask(w, i, IN) && !poll[|w.listen| + i].revents.output
    ensures poll[|w.listen| + i].revents.output ==> HasMask(w, i, OUT)
  {
    PutEnabled(clients, poll, w, i);
  }

  lemma StartsCgi(clients: seq<Client>, poll: seq<PollFd>, w: World, s: Step, from: nat)
    requires Shows(clients, poll, w) && s.StartCgi? && Enabled(w, s) && s.i < |clients|
    requires Current(poll, from) && |w.listen| + s.i < from
    ensures |w.listen| + s.i < |poll|
    ensures var p := SetEvents(poll, |w.listen| + s.i, NONE) + [PollFd(s.pipe, IN, QUIET)];
            Shows(clients[s.i := Started(clients[s.i], s.pipe, s.now, s.timeOut)], p, Apply(w, s)) && Current(p, from)
  {
    ShowsStartCgi(clients, poll, w, s);
    CurrentSet(poll, |w.listen| + s.i, NONE, from);
  }

  /** The life cycle as the server's tests see it. */
  lemma CycleOf(clients: seq<Client>, poll: seq<PollFd>, w: World, i: nat)
    requires Shows(clients, poll, w) && HasMask(w, i, OUT)
    ensures i < |clients| && clients[i] == w.sessions[i].client
    ensures clients[i].status == CgiReq ==> clients[i].resStatus == StartSend && clients[i].readPipe == -1
    ensures clients[i].status != CgiReq ==> !clients[i].alreadyExec
  {
    assert ClientOk(w.sessions[i].client, OUT);
  }

  /** Beyond the last entry nothing is reported. */
  lemma CurrentNone(poll: seq<PollFd>)
    ensures Current(poll, |poll|)
  {
  }

  lemma CurrentFrom(poll: seq<PollFd>, from: nat)
    requires Current(poll, 0)
    ensures Current(poll, from)
  {
  }

  /** The reported events are not part of the layout. */
  lemma ShowsReport(clients: seq<Client>, was: seq<PollFd>, poll: seq<PollFd>, w: World)
    requires Shows(clients, was, w) && |poll| == |was|
    requires forall k :: 0 <= k < |was| ==> poll[k].fd == was[k].fd && poll[k].events == was[k].events
    ensures Shows(clients, poll, w)
  {
    assert Slots(poll) == Slots(was);
  }

  /** A step that only gives client `i` new fields and its socket new events. */
  predicate Puts(w: World, s: Step, i: nat, c: Client, m: Mask) {
    Enabled(w, s) && i < |w.sessions| && Apply(w, s) == Put(w, i, c, m)
  }

  lemma PutsReceive(w: World, i: nat, got: Received, now: int)
    requires HasMask(w, i, IN)
    ensures Puts(w, Receive(i, got, now), i, AfterReceive(w.sessions[i].client, got).(startTime := now),
                 if got == Static || got == Cgi then OUT else IN)
  {
  }

  lemma PutsRespond(w: World, i: nat, resStatus: ClientState, closing: bool, now: int)
    requires HasMask(w, i, OUT) && w.sessions[i].client.status != CgiReq && w.sessions[i].client.resStatus != WritingDone
    requires resStatus == Writing || resStatus == WritingDone
    ensures Puts(w, Respond(i, resStatus, closing, now), i,
                 w.sessions[i].client.(resStatus := resStatus, closing := closing, startTime := now), OUT)
  {
  }

  lemma PutsFailCgi(w: World, i: nat, now: int, timeOut: int)
    requires HasMask(w, i, OUT) && w.sessions[i].client.status == CgiReq && !w.sessions[i].client.alreadyExec
    ensures Puts(w, FailCgi(i, now, timeOut), i,
                 w.sessions[i].client.(alreadyExec := false, cgiState := CgiFailed, readPipe := -1,
                                       startTime := now, timeOut := timeOut), OUT)
  {
  }

  lemma PutsTakes(w: World, s: Step, i: nat, c: Client, m: Mask)
    requires Puts(w, s, i, c, m)
    ensures Takes(w, [s], Put(w, i, c, m))
  {
    TakesOne(w, s);
  }

  // ---------------------------------------------------------------- what was reported for the clients

  /** What was reported for the `n` entries from `start` on. */
  function RevsOf(poll: seq<PollFd>, start: nat, n: nat): (revs: seq<Revents>)
    ensures |revs| == n
  {
    seq(n, k requires 0 <= k < n => if start + k < |poll| then poll[start + k].revents else QUIET)
  }

  lemma RevsRemove(poll: seq<PollFd>, start: nat, n: nat, i: nat)
    requires i < n && start + i < |poll|
    ensures RevsOf(RemoveAt(poll, start + i), start, n - 1) == RemoveAt(RevsOf(poll, start, n), i)
  {
  }

  lemma RevsRemoveTail(poll: seq<PollFd>, start: nat, n: nat, i: nat)
    requires start + n <= i < |poll|
    ensures RevsOf(RemoveAt(poll, i), start, n) == RevsOf(poll, start, n)
  {
  }

  lemma RevsSet(poll: seq<PollFd>, start: nat, n: nat, k: nat, m: Mask)
    requires k < |poll|
    ensures RevsOf(SetEvents(poll, k, m), start, n) == RevsOf(poll, start, n)
  {
  }

  lemma RevsAppend(poll: seq<PollFd>, start: nat, n: nat, x: PollFd)
    requires start + n <= |poll|
    ensures RevsOf(poll + [x], start, n) == RevsOf(poll, start, n)
  {
  }

  lemma SessionIs(clients: seq<Client>, poll: seq<PollFd>, w: World, i: nat)
    requires Shows(clients, poll, w) && i < |clients|
    ensures |w.sessions| == |clients| && w.sessions[i].client == clients[i]
  {
  }
}
