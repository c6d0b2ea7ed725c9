/**
 * The state of the event loop and its atomic steps (webserv/sources/server/server.cpp,
 * webserv/sources/server/SocketManager.cpp, webserv/sources/cgi/CGI.cpp). Every loop of the server
 * is a run of these steps; the invariant `Inv` is the layout of the poll array together with the
 * life cycle of each client.
 */
module PollLayout {
  import opened PollFds

  /** `enum ClientState`, for a client's status, its request status and its response status. */
  datatype ClientState =
    | New | CgiReq | Reading | ReadingDone | Writing | WritingDone | Disconnected | Fatal | StartSend

  datatype CgiState = CgiFailed | CgiRunning | CgiDone

  /** `output` is how many bytes of the CGI response are left to send; `hint` are the entries of the client's socket. */
  datatype Client = Client(
    fd: int,
    status: ClientState,
    reqStatus: ClientState,
    resStatus: ClientState,
    closing: bool,
    alreadyExec: bool,
    cgiState: CgiState,
    readPipe: int,
    output: nat,
    startTime: int,
    timeOut: int,
    remaining: int,
    hint: seq<nat>)

  /** A client and the events its socket waits for. */
  datatype Session = Session(client: Client, mask: Mask)

  /**
   * The three parts of the poll array, kept apart: the listening sockets, the sessions in order,
   * and the pipes of running scripts. `hints` are the table entries behind each listening socket.
   */
  datatype World = World(listen: seq<int>, hints: seq<seq<nat>>, sessions: seq<Session>, pipes: seq<int>)

  function RemoveAt<T>(s: seq<T>, i: nat): (r: seq<T>)
    requires i < |s|
    ensures |r| == |s| - 1
  {
    s[..i] + s[i + 1..]
  }

  function InsertAt<T>(s: seq<T>, i: nat, x: T): seq<T>
    requires i <= |s|
  {
    s[..i] + [x] + s[i..]
  }

  // ---------------------------------------------------------------- the invariant

  /** A client's script runs. */
  predicate Running(c: Client) {
    c.alreadyExec && c.cgiState == CgiRunning
  }

  /** The life cycle of one client, against the events its socket waits for. */
  predicate ClientOk(c: Client, m: Mask) {
    && |c.hint| > 0
    && c.readPipe >= -1
    && (m == IN || m == OUT || m == NONE)
    && (m == NONE <==> Running(c))
    && (m == NONE <==> c.readPipe != -1)
    && (m == IN ==>
          && !c.alreadyExec
          && (c.status == New || (c.status == Reading && c.reqStatus == Reading)))
    && (m != IN ==>
          || (c.status == Reading && !c.alreadyExec)
          || (c.status == CgiReq && c.resStatus == StartSend))
  }

  predicate Distinct(fds: seq<int>) {
    && (forall a :: 0 <= a < |fds| ==> fds[a] >= 0)
    && (forall a, b :: 0 <= a < b < |fds| ==> fds[a] != fds[b])
  }

  function ClientFds(ss: seq<Session>): (fds: seq<int>)
    ensures |fds| == |ss| && forall i :: 0 <= i < |ss| ==> fds[i] == ss[i].client.fd
  {
    seq(|ss|, i requires 0 <= i < |ss| => ss[i].client.fd)
  }

  /** Every descriptor that is open, in the order of the poll array. */
  function OpenFds(w: World): seq<int> {
    w.listen + ClientFds(w.sessions) + w.pipes
  }

  /** Some client reads its script's output from `fd`. */
  predicate Owned(ss: seq<Session>, fd: int) {
    exists i :: 0 <= i < |ss| && ss[i].client.readPipe == fd
  }

  predicate Cycle(w: World) {
    forall i :: 0 <= i < |w.sessions| ==> ClientOk(w.sessions[i].client, w.sessions[i].mask)
  }

  /** The pipes are exactly those the clients read from, and each belongs to one client. */
  predicate Pipes(w: World) {
    && (forall p :: p in w.pipes ==> Owned(w.sessions, p))
    && (forall i :: 0 <= i < |w.sessions| ==>
          w.sessions[i].client.readPipe == -1 || w.sessions[i].client.readPipe in w.pipes)
    && (forall i, k :: 0 <= i < k < |w.sessions| && w.sessions[i].client.readPipe != -1 ==>
          w.sessions[i].client.readPipe != w.sessions[k].client.readPipe)
  }

  predicate Hints(w: World) {
    |w.hints| == |w.listen| && forall k :: 0 <= k < |w.hints| ==> |w.hints[k]| > 0
  }

  predicate Inv(w: World) {
    Hints(w) && Distinct(OpenFds(w)) && Pipes(w) && Cycle(w)
  }

  // ---------------------------------------------------------------- the steps

  /** What `recv` and the request handler made of a readable socket, the peer's closing apart. */
  datatype Received = More | Failed | Static | Cgi

  /** What `read` made of a readable pipe. */
  datatype PipeRead = Bytes | Eof(output: nat) | Broken(output: nat)

  datatype Step =
    | Accept(k: nat, fd: int, now: int, timeOut: int)
    | Disconnect(i: nat)
    | Receive(i: nat, got: Received, now: int)
    | Touch(i: nat, now: int)
    | StartCgi(i: nat, pipe: int, now: int, timeOut: int)
    | FailCgi(i: nat, now: int, timeOut: int)
    | ReadPipe(i: nat, read: PipeRead)
    | SendCgi(i: nat, bytes: nat, now: int)
    | Respond(i: nat, resStatus: ClientState, closing: bool, now: int)
    | NextRequest(i: nat, timeOut: int)
    | Remaining(i: nat, time: int)

  predicate HasMask(w: World, i: nat, m: Mask) {
    i < |w.sessions| && w.sessions[i].mask == m
  }

  /** The system hands out descriptors that are not open. */
  predicate NewFd(w: World, fd: int) {
    fd >= 0 && fd !in OpenFds(w)
  }

  /** When a step can happen: the branch of the server's loops that takes it. */
  predicate Enabled(w: World, s: Step) {
    match s
    case Accept(k, fd, now, timeOut) => k < |w.hints| && NewFd(w, fd)
    case Disconnect(i) => i < |w.sessions|
    case Receive(i, got, now) => HasMask(w, i, IN)
    case Touch(i, now) => i < |w.sessions|
    case StartCgi(i, pipe, now, timeOut) =>
      HasMask(w, i, OUT) && w.sessions[i].client.status == CgiReq && !w.sessions[i].client.alreadyExec && NewFd(w, pipe)
    case FailCgi(i, now, timeOut) =>
      HasMask(w, i, OUT) && w.sessions[i].client.status == CgiReq && !w.sessions[i].client.alreadyExec
    case ReadPipe(i, read) => i < |w.sessions| && w.sessions[i].client.readPipe in w.pipes
    case SendCgi(i, bytes, now) =>
      && HasMask(w, i, OUT)
      && var c := w.sessions[i].client;
         c.status == CgiReq && c.alreadyExec && c.cgiState == CgiDone && bytes <= c.output
    case Respond(i, resStatus, closing, now) =>
      && HasMask(w, i, OUT)
      && w.sessions[i].client.status != CgiReq && w.sessions[i].client.resStatus != WritingDone
      && (resStatus == Writing || resStatus == WritingDone)
    case NextRequest(i, timeOut) =>
      && HasMask(w, i, OUT)
      && var c := w.sessions[i].client;
         if c.status != CgiReq then c.resStatus == WritingDone
         else if c.alreadyExec then c.cgiState == CgiDone && c.output == 0
         else c.cgiState == CgiFailed
    case Remaining(i, time) => i < |w.sessions|
  }

  function NewClient(fd: int, now: int, timeOut: int, hint: seq<nat>): Client {
    Client(fd, New, New, New, false, false, CgiDone, -1, 0, now, timeOut, 0, hint)
  }

  function AfterReceive(c: Client, got: Received): Client {
    var status := if c.status == New then Reading else c.status;
    var reqStatus := if c.status == New then Reading else c.reqStatus;
    match got
    case Failed => c
    case More => c.(status := status, reqStatus := reqStatus)
    case Static => c.(status := status, reqStatus := ReadingDone, resStatus := StartSend)
    case Cgi => c.(status := CgiReq, reqStatus := ReadingDone, resStatus := StartSend)
  }

  function Started(c: Client, pipe: int, now: int, timeOut: int): Client {
    c.(alreadyExec := true, cgiState := CgiRunning, readPipe := pipe, startTime := now, timeOut := timeOut)
  }

  function AfterPipeRead(c: Client, read: PipeRead): Client {
    match read
    case Bytes => c.(cgiState := CgiRunning)
    case Eof(output) => c.(cgiState := CgiDone, readPipe := -1, output := output)
    case Broken(output) => c.(cgiState := CgiFailed, readPipe := -1, output := output)
  }

  function AfterRequest(c: Client, timeOut: int): Client {
    c.(status := New, alreadyExec := false,
       reqStatus := if c.status == CgiReq then c.reqStatus else New,
       timeOut := if c.status == CgiReq then timeOut else c.timeOut)
  }

  function Put(w: World, i: nat, c: Client, m: Mask): World
    requires i < |w.sessions|
  {
    w.(sessions := w.sessions[i := Session(c, m)])
  }

  /** The first place of `p`, or the length. */
  function IndexOf(s: seq<int>, p: int): (r: nat)
    ensures r <= |s| && forall k :: 0 <= k < r ==> s[k] != p
    ensures r < |s| ==> s[r] == p
    ensures p in s ==> r < |s|
  {
    if |s| == 0 || s[0] == p then 0 else 1 + IndexOf(s[1..], p)
  }

  /** The pipes without `p`; the loops look for the first entry. */
  function Without(pipes: seq<int>, p: int): seq<int> {
    if p in pipes then RemoveAt(pipes, IndexOf(pipes, p)) else pipes
  }

  function Apply(w: World, s: Step): (v: World)
    requires Enabled(w, s)
    ensures v.listen == w.listen && v.hints == w.hints
  {
    match s
    case Accept(k, fd, now, timeOut) =>
      w.(sessions := w.sessions + [Session(NewClient(fd, now, timeOut, w.hints[k]), IN)])
    case Disconnect(i) =>
      w.(sessions := RemoveAt(w.sessions, i), pipes := Without(w.pipes, w.sessions[i].client.readPipe))
    case Receive(i, got, now) =>
      Put(w, i, AfterReceive(w.sessions[i].client, got).(startTime := now),
          if got == Static || got == Cgi then OUT else IN)
    case Touch(i, now) =>
      Put(w, i, w.sessions[i].client.(startTime := now), w.sessions[i].mask)
    case StartCgi(i, pipe, now, timeOut) =>
      Put(w, i, Started(w.sessions[i].client, pipe, now, timeOut), NONE)
      .(pipes := w.pipes + [pipe])
    case FailCgi(i, now, timeOut) =>
      Put(w, i, w.sessions[i].client.(alreadyExec := false, cgiState := CgiFailed, readPipe := -1,
                                      startTime := now, timeOut := timeOut), OUT)
    case ReadPipe(i, read) =>
      var c := AfterPipeRead(w.sessions[i].client, read);
      if read == Bytes then Put(w, i, c, w.sessions[i].mask)
      else Put(w, i, c, OUT).(pipes := Without(w.pipes, w.sessions[i].client.readPipe))
    case SendCgi(i, bytes, now) =>
      Put(w, i, w.sessions[i].client.(output := w.sessions[i].client.output - bytes, startTime := now), OUT)
    case Respond(i, resStatus, closing, now) =>
      Put(w, i, w.sessions[i].client.(resStatus := resStatus, closing := closing, startTime := now), OUT)
    case NextRequest(i, timeOut) => Put(w, i, AfterRequest(w.sessions[i].client, timeOut), IN)
    case Remaining(i, time) =>
      Put(w, i, w.sessions[i].client.(remaining := time), w.sessions[i].mask)
  }

  /** The steps of a run, each enabled when it is taken. */
  predicate Legal(w: World, steps: seq<Step>)
    decreases |steps|
  {
    |steps| == 0 || (Enabled(w, steps[0]) && Legal(Apply(w, steps[0]), steps[1..]))
  }

  function Run(w: World, steps: seq<Step>): World
    requires Legal(w, steps)
    decreases |steps|
  {
    if |steps| == 0 then w else Run(Apply(w, steps[0]), steps[1..])
  }

  // ---------------------------------------------------------------- every step keeps the invariant

  lemma DistinctRemove(fds: seq<int>, i: nat)
    requires i < |fds| && Distinct(fds)
    ensures Distinct(RemoveAt(fds, i))
    ensures fds[i] !in RemoveAt(fds, i)
    ensures forall p :: p in fds && p != fds[i] ==> p in RemoveAt(fds, i)
    ensures forall p :: p in RemoveAt(fds, i) ==> p in fds
  {
    var r := RemoveAt(fds, i);
    forall p | p in fds && p != fds[i] ensures p in r {
      var k :| 0 <= k < |fds| && fds[k] == p;
      assert r[if k < i then k else k - 1] == p;
    }
  }

  lemma DistinctInsert(fds: seq<int>, i: nat, x: int)
    requires i <= |fds| && Distinct(fds) && x >= 0 && x !in fds
    ensures Distinct(InsertAt(fds, i, x))
  {
  }

  lemma DistinctSlice(a: seq<int>, b: seq<int>, c: seq<int>)
    requires Distinct(a + b + c)
    ensures Distinct(b)
  {
    var fds := a + b + c;
    forall k | 0 <= k < |b| ensures fds[|a| + k] == b[k] {
    }
    forall k, l | 0 <= k < l < |b| ensures b[k] != b[l] {
      assert fds[|a| + k] != fds[|a| + l];
    }
  }

  lemma DistinctParts(w: World)
    requires Distinct(OpenFds(w))
    ensures Distinct(ClientFds(w.sessions)) && Distinct(w.pipes)
  {
    hide Distinct;
    DistinctSlice(w.listen, ClientFds(w.sessions), w.pipes);
    assert OpenFds(w) == w.listen + ClientFds(w.sessions) + w.pipes + [];
    DistinctSlice(w.listen + ClientFds(w.sessions), w.pipes, []);
  }

  /** Changing a client, but not its descriptor or pipe. */
  lemma PutKeeps(w: World, i: nat, c: Client, m: Mask)
    requires Inv(w) && i < |w.sessions| && ClientOk(c, m)
    requires c.fd == w.sessions[i].client.fd && c.readPipe == w.sessions[i].client.readPipe
    ensures Inv(Put(w, i, c, m))
  {
    var v := Put(w, i, c, m);
    assert ClientFds(v.sessions) == ClientFds(w.sessions);
    forall p | Owned(w.sessions, p) ensures Owned(v.sessions, p) {
      var k :| 0 <= k < |w.sessions| && w.sessions[k].client.readPipe == p;
      assert v.sessions[k].client.readPipe == p;
    }
    hide Owned, Distinct, ClientOk;
  }

  lemma OwnedAppend(ss: seq<Session>, s: Session, p: int)
    ensures Owned(ss + [s], p) <==> Owned(ss, p) || s.client.readPipe == p
  {
    var t := ss + [s];
    if Owned(ss, p) {
      var i :| 0 <= i < |ss| && ss[i].client.readPipe == p;
      assert t[i].client.readPipe == p;
    }
    assert t[|ss|] == s;
  }

  lemma AcceptKeeps(w: World, s: Step)
    requires Inv(w) && s.Accept? && Enabled(w, s)
    ensures Inv(Apply(w, s))
  {
    var v := Apply(w, s);
    var n := |w.sessions|;
    assert OpenFds(v) == InsertAt(OpenFds(w), |w.listen| + n, s.fd);
    DistinctInsert(OpenFds(w), |w.listen| + n, s.fd);
    forall p | p in v.pipes ensures Owned(v.sessions, p) {
      OwnedAppend(w.sessions, v.sessions[n], p);
    }
    assert ClientOk(v.sessions[n].client, IN);
    hide Owned, Distinct, ClientOk;
  }

  lemma StartCgiKeeps(w: World, s: Step)
    requires Inv(w) && s.StartCgi? && Enabled(w, s)
    ensures Inv(Apply(w, s))
  {
    var v := Apply(w, s);
    var i := s.i;
    assert ClientFds(v.sessions) == ClientFds(w.sessions);
    assert OpenFds(v) == InsertAt(OpenFds(w), |OpenFds(w)|, s.pipe);
    DistinctInsert(OpenFds(w), |OpenFds(w)|, s.pipe);
    assert s.pipe !in w.pipes;
    DistinctParts(w);
    assert ClientOk(w.sessions[i].client, OUT);
    forall p | p in v.pipes ensures Owned(v.sessions, p) {
      if p == s.pipe {
        assert v.sessions[i].client.readPipe == p;
      } else {
        var k :| 0 <= k < |w.sessions| && w.sessions[k].client.readPipe == p;
        assert v.sessions[k].client.readPipe == p;
      }
    }
    assert ClientOk(v.sessions[i].client, NONE);
    hide Owned, Distinct, ClientOk;
  }

  // ---------------------------------------------------------------- pipes and clients that go

  /** Everything but the life cycle, which does not hold half-way through a step. */
  predicate Linked(w: World) {
    Distinct(OpenFds(w)) && Pipes(w)
  }

  lemma RemoveAtTail(a: seq<int>, b: seq<int>, j: nat)
    requires j < |b|
    ensures RemoveAt(a + b, |a| + j) == a + RemoveAt(b, j)
  {
  }

  lemma RemoveAtMiddle<T>(a: seq<T>, b: seq<T>, c: seq<T>, i: nat)
    requires i < |b|
    ensures RemoveAt(a + b + c, |a| + i) == a + RemoveAt(b, i) + c
  {
  }

  lemma WithoutMembers(pipes: seq<int>, p: int)
    requires Distinct(pipes)
    ensures forall q :: q in Without(pipes, p) <==> q in pipes && q != p
  {
    if p in pipes {
      DistinctRemove(pipes, IndexOf(pipes, p));
    }
  }

  lemma RemovePipeFds(w: World, j: nat)
    requires Distinct(OpenFds(w)) && j < |w.pipes|
    ensures Distinct(OpenFds(w.(pipes := RemoveAt(w.pipes, j))))
  {
    var a := w.listen + ClientFds(w.sessions);
    RemoveAtTail(a, w.pipes, j);
    assert RemoveAt(OpenFds(w), |a| + j) == a + RemoveAt(w.pipes, j);
    DistinctRemove(OpenFds(w), |a| + j);
  }

  lemma WithoutOpenFds(w: World, p: int)
    requires Distinct(OpenFds(w))
    ensures Distinct(OpenFds(w.(pipes := Without(w.pipes, p))))
    ensures forall q :: q in Without(w.pipes, p) <==> q in w.pipes && q != p
  {
    DistinctParts(w);
    WithoutMembers(w.pipes, p);
    hide RemoveAt, Distinct, OpenFds;
    if p in w.pipes {
      RemovePipeFds(w, IndexOf(w.pipes, p));
    }
  }

  /** Client `i` no longer reads, and its pipe, if it has one, is closed. */
  lemma ClosePipeKeeps(w: World, i: nat, c: Client, m: Mask)
    requires Linked(w) && i < |w.sessions| && c.fd == w.sessions[i].client.fd && c.readPipe == -1
    ensures Linked(Put(w, i, c, m).(pipes := Without(w.pipes, w.sessions[i].client.readPipe)))
  {
    var p := w.sessions[i].client.readPipe;
    var v := Put(w, i, c, m).(pipes := Without(w.pipes, p));
    assert ClientFds(v.sessions) == ClientFds(w.sessions);
    WithoutOpenFds(w, p);
    forall q | q in v.pipes ensures Owned(v.sessions, q) {
      var k :| 0 <= k < |w.sessions| && w.sessions[k].client.readPipe == q;
      assert v.sessions[k].client.readPipe == q;
    }
    hide Owned, Distinct;
  }

  lemma RemoveOwned(ss: seq<Session>, i: nat, p: int)
    requires i < |ss| && Owned(ss, p) && ss[i].client.readPipe != p
    ensures Owned(RemoveAt(ss, i), p)
  {
    var k :| 0 <= k < |ss| && ss[k].client.readPipe == p;
    assert RemoveAt(ss, i)[if k < i then k else k - 1].client.readPipe == p;
  }

  lemma RemoveClientFds(w: World, i: nat)
    requires Distinct(OpenFds(w)) && i < |w.sessions|
    ensures Distinct(OpenFds(w.(sessions := RemoveAt(w.sessions, i))))
  {
    assert ClientFds(RemoveAt(w.sessions, i)) == RemoveAt(ClientFds(w.sessions), i);
    RemoveAtMiddle(w.listen, ClientFds(w.sessions), w.pipes, i);
    DistinctRemove(OpenFds(w), |w.listen| + i);
  }

  lemma RemoveIdleKeeps(w: World, i: nat)
    requires Linked(w) && i < |w.sessions| && w.sessions[i].client.readPipe == -1
    ensures Linked(w.(sessions := RemoveAt(w.sessions, i)))
  {
    RemoveClientFds(w, i);
    DistinctParts(w);
    forall q | q in w.pipes ensures Owned(RemoveAt(w.sessions, i), q) {
      RemoveOwned(w.sessions, i, q);
    }
    hide Owned, Distinct;
  }

  lemma DisconnectKeeps(w: World, s: Step)
    requires Inv(w) && s.Disconnect? && Enabled(w, s)
    ensures Inv(Apply(w, s))
  {
    var i := s.i;
    var c := w.sessions[i].client.(readPipe := -1);
    var u := Put(w, i, c, NONE).(pipes := Without(w.pipes, w.sessions[i].client.readPipe));
    ClosePipeKeeps(w, i, c, NONE);
    RemoveIdleKeeps(u, i);
    assert RemoveAt(u.sessions, i) == RemoveAt(w.sessions, i);
    hide ClientOk, Pipes, Distinct;
  }

  lemma ReadPipeKeeps(w: World, s: Step)
    requires Inv(w) && s.ReadPipe? && Enabled(w, s)
    ensures Inv(Apply(w, s))
  {
    var i := s.i;
    var reader := w.sessions[i].client;
    var c := AfterPipeRead(reader, s.read);
    DistinctParts(w);
    assert reader.readPipe != -1 && ClientOk(reader, w.sessions[i].mask);
    if s.read == Bytes {
      PutKeeps(w, i, c, w.sessions[i].mask);
    } else {
      ClosePipeKeeps(w, i, c, OUT);
      assert ClientOk(c, OUT);
      hide ClientOk, Pipes, Distinct;
    }
  }

  lemma StepKeeps(w: World, s: Step)
    requires Inv(w) && Enabled(w, s)
    ensures Inv(Apply(w, s))
  {
    match s
    case Accept(k, fd, now, timeOut) => AcceptKeeps(w, s);
    case Disconnect(i) => DisconnectKeeps(w, s);
    case StartCgi(i, pipe, now, timeOut) => StartCgiKeeps(w, s);
    case ReadPipe(i, read) => ReadPipeKeeps(w, s);
    case _ => PutStepKeeps(w, s);
  }

  lemma PutStepKeeps(w: World, s: Step)
    requires Inv(w) && Enabled(w, s)
    requires !s.Accept? && !s.Disconnect? && !s.StartCgi? && !s.ReadPipe?
    ensures Inv(Apply(w, s))
  {
    var c, m := w.sessions[s.i].client, w.sessions[s.i].mask;
    assert ClientOk(c, m);
    PutKeeps(w, s.i, Apply(w, s).sessions[s.i].client, Apply(w, s).sessions[s.i].mask);
  }

  /** Safety over every run: no sequence of steps leaves the invariant. */
  lemma {:induction false} RunKeeps(w: World, steps: seq<Step>)
    requires Inv(w) && Legal(w, steps)
    ensures Inv(Run(w, steps))
    decreases |steps|
  {
    if |steps| > 0 {
      StepKeeps(w, steps[0]);
      RunKeeps(Apply(w, steps[0]), steps[1..]);
    }
  }

  /** Some run leads from `w` to `v`. */
  ghost predicate Reaches(w: World, v: World) {
    exists steps :: Legal(w, steps) && Run(w, steps) == v
  }

  lemma ReachesSelf(w: World)
    ensures Reaches(w, w)
  {
    assert Legal(w, []) && Run(w, []) == w;
  }

  lemma {:induction false} RunAppend(w: World, steps: seq<Step>, more: seq<Step>)
    requires Legal(w, steps) && Legal(Run(w, steps), more)
    ensures Legal(w, steps + more) && Run(w, steps + more) == Run(Run(w, steps), more)
    decreases |steps|
  {
    if |steps| > 0 {
      RunAppend(Apply(w, steps[0]), steps[1..], more);
      assert (steps + more)[1..] == steps[1..] + more;
    } else {
      assert steps + more == more;
    }
  }

  lemma ReachesTrans(u: World, v: World, w: World)
    requires Reaches(u, v) && Reaches(v, w)
    ensures Reaches(u, w)
  {
    var steps :| Legal(u, steps) && Run(u, steps) == v;
    var more :| Legal(v, more) && Run(v, more) == w;
    RunAppend(u, steps, more);
  }

  lemma ReachesStep(u: World, v: World, s: Step)
    requires Reaches(u, v) && Enabled(v, s)
    ensures Reaches(u, Apply(v, s))
  {
    assert [s][1..] == [] && Legal(Apply(v, s), []);
    hide Enabled, Apply;
    assert Legal(v, [s]) && Run(v, [s]) == Apply(v, s);
    ReachesTrans(u, v, Apply(v, s));
  }

  lemma StepReaches(u: World, s: Step)
    requires Enabled(u, s)
    ensures Reaches(u, Apply(u, s))
  {
    ReachesSelf(u);
    ReachesStep(u, u, s);
  }

  /** Safety over every reachable state. */
  lemma ReachableIsSafe(w: World, v: World)
    requires Inv(w) && Reaches(w, v)
    ensures Inv(v)
  {
    var steps :| Legal(w, steps) && Run(w, steps) == v;
    RunKeeps(w, steps);
  }
}
