/**
 * What `poll` reported, through one turn of the main loop: which clients are left when the requests
 * and responses begin, what was reported for each, and which pipes are read
 * (webserv/sources/server/SocketManager.cpp:120-171, 222-421).
 */
module Reports {
  import opened PollFds
  import opened PollLayout
  import opened PollArray
  import opened Turns
  import opened Timeouts

  /** POLLIN and POLLOUT come only where they are asked for. */
  function Heard(r: Revents, m: Mask): Revents {
    Revents(r.input && m.input, r.output && m.output, r.hup, r.err)
  }

  function PolledEntry(e: PollFd, r: Revents): PollFd {
    e.(revents := Heard(r, e.events))
  }

  /** The array as `poll` leaves it, when the system has `reports` to make. */
  function Polled(poll: seq<PollFd>, reports: seq<Revents>): (polled: seq<PollFd>)
    requires |reports| == |poll|
    ensures |polled| == |poll|
    ensures forall k :: 0 <= k < |poll| ==> polled[k] == PolledEntry(poll[k], reports[k])
  {
    seq(|poll|, k requires 0 <= k < |poll| => PolledEntry(poll[k], reports[k]))
  }

  lemma PolledIsDistinct(clients: seq<Client>, poll: seq<PollFd>, w: World, reports: seq<Revents>)
    requires Shows(clients, poll, w) && |reports| == |poll|
    ensures forall a, b :: 0 <= a < b < |poll| ==> Polled(poll, reports)[a].fd != Polled(poll, reports)[b].fd
  {
    PollIsDistinct(poll, w);
  }

  // ---------------------------------------------------------------- clients and their reports

  /** Clients in order, and what was reported for each. */
  datatype Roster = Roster(clients: seq<Client>, revs: seq<Revents>)

  predicate Full(p: Roster) {
    |p.clients| == |p.revs|
  }

  function Dropped(p: Roster, i: nat): (r: Roster)
    requires Full(p) && i < |p.clients|
    ensures Full(r)
  {
    Roster(RemoveAt(p.clients, i), RemoveAt(p.revs, i))
  }

  function Joined(p: Roster, q: Roster): Roster {
    Roster(p.clients + q.clients, p.revs + q.revs)
  }

  function Front(p: Roster, i: nat): (r: Roster)
    requires Full(p) && i <= |p.clients|
    ensures Full(r)
  {
    Roster(p.clients[..i], p.revs[..i])
  }

  function Rest(p: Roster, i: nat): (r: Roster)
    requires Full(p) && i <= |p.clients|
    ensures Full(r)
  {
    Roster(p.clients[i..], p.revs[i..])
  }

  /** After the sweep: the clients that have not timed out. */
  function Swept(p: Roster, now: int): (r: Roster)
    requires Full(p)
    ensures Full(r) && r.clients == Alive(p.clients, now)
    decreases |p.clients|
  {
    if |p.clients| == 0 then Roster([], [])
    else
      var rest := Swept(Rest(p, 1), now);
      assert [] + rest.clients == rest.clients;
      if Expired(p.clients[0], now) then rest
      else Roster([p.clients[0]] + rest.clients, [p.revs[0]] + rest.revs)
  }

  lemma SweptFrom(p: Roster, now: int)
    requires Full(p)
    ensures Joined(Front(p, 0), Swept(Rest(p, 0), now)) == Swept(p, now)
  {
    assert Rest(p, 0) == p;
  }

  lemma SweptHead(p: Roster, now: int, i: nat)
    requires Full(p) && i < |p.clients|
    ensures var rest := Swept(Rest(p, i + 1), now);
            Swept(Rest(p, i), now) ==
            if Expired(p.clients[i], now) then rest else Roster([p.clients[i]] + rest.clients, [p.revs[i]] + rest.revs)
  {
    assert Rest(Rest(p, i), 1) == Rest(p, i + 1);
  }

  lemma JoinedMoves(p: Roster, i: nat, q: Roster)
    requires Full(p) && i < |p.clients|
    ensures Joined(Front(p, i), Roster([p.clients[i]] + q.clients, [p.revs[i]] + q.revs)) == Joined(Front(p, i + 1), q)
  {
    assert p.clients[..i + 1] == p.clients[..i] + [p.clients[i]] && p.revs[..i + 1] == p.revs[..i] + [p.revs[i]];
  }

  lemma DroppedParts(p: Roster, i: nat)
    requires Full(p) && i < |p.clients|
    ensures Front(Dropped(p, i), i) == Front(p, i) && Rest(Dropped(p, i), i) == Rest(p, i + 1)
  {
  }

  /** One client looked at: it stays in front of the rest, or goes. */
  lemma SweptStep(p: Roster, now: int, i: nat)
    requires Full(p) && i < |p.clients|
    ensures !Expired(p.clients[i], now) ==>
              Joined(Front(p, i), Swept(Rest(p, i), now)) == Joined(Front(p, i + 1), Swept(Rest(p, i + 1), now))
    ensures Expired(p.clients[i], now) ==>
              var q := Dropped(p, i); Joined(Front(p, i), Swept(Rest(p, i), now)) == Joined(Front(q, i), Swept(Rest(q, i), now))
  {
    hide Swept, Joined, Front, Rest, Dropped, Alive;
    SweptHead(p, now, i);
    JoinedMoves(p, i, Swept(Rest(p, i + 1), now));
    DroppedParts(p, i);
  }

  lemma SweptAll(p: Roster, now: int)
    requires Full(p)
    ensures Joined(Front(p, |p.clients|), Swept(Rest(p, |p.clients|), now)) == p
  {
  }

  /** After the loop over the errors from the `k`-th client on, which stops at the number of clients and not of entries. */
  function NoErrors(p: Roster, k: nat, openPort: nat): (r: Roster)
    requires Full(p)
    ensures Full(r)
    decreases |p.clients| - k
  {
    if openPort + k >= |p.clients| then p
    else if Bad(p.revs[k]) then NoErrors(Dropped(p, k), k, openPort)
    else NoErrors(p, k + 1, openPort)
  }

  /** Only clients with errors go, the others stay in order, and no error is left below the place where the loop stops. */
  lemma {:induction false} NoErrorsMeans(p: Roster, k: nat, openPort: nat)
    requires Full(p) && forall j :: 0 <= j < k && j < |p.revs| ==> !Bad(p.revs[j])
    ensures var r := NoErrors(p, k, openPort);
            && Calm(r.clients, r.revs) == Calm(p.clients, p.revs)
            && forall j :: 0 <= j && openPort + j < |r.revs| ==> !Bad(r.revs[j])
    decreases |p.clients| - k
  {
    hide Calm, Bad, RemoveAt;
    if openPort + k < |p.clients| {
      if Bad(p.revs[k]) {
        CalmRemove(p.clients, p.revs, k);
        RemoveAtBefore(p.revs, k);
        NoErrorsMeans(Dropped(p, k), k, openPort);
      } else {
        NoErrorsMeans(p, k + 1, openPort);
      }
    }
  }

  lemma {:induction false} CalmStays(cs: seq<Client>, revs: seq<Revents>, i: nat)
    requires |cs| == |revs| && i < |cs| && !revs[i].hup && !revs[i].err
    ensures cs[i] in Calm(cs, revs)
    decreases |cs|
  {
    if i > 0 {
      CalmStays(cs[1..], revs[1..], i - 1);
    }
  }

  lemma {:induction false} CalmAmong(cs: seq<Client>, revs: seq<Revents>, c: Client)
    requires |cs| == |revs| && c in Calm(cs, revs)
    ensures c in cs
    decreases |cs|
  {
    if |cs| > 0 && c != cs[0] {
      CalmAmong(cs[1..], revs[1..], c);
    }
  }

  /** Told by the events: who had neither POLLHUP nor an error stays, and below the stop nobody with one is left. */
  lemma OnlyErrorsGo(p: Roster, openPort: nat)
    requires Full(p)
    ensures var r := NoErrors(p, 0, openPort);
            && (forall i :: 0 <= i < |p.clients| && !p.revs[i].hup && !p.revs[i].err ==> p.clients[i] in r.clients)
            && forall j :: 0 <= j && openPort + j < |r.revs| ==> !r.revs[j].hup && !r.revs[j].err
  {
    var r := NoErrors(p, 0, openPort);
    NoErrorsMeans(p, 0, openPort);
    forall j | 0 <= j && openPort + j < |r.revs| ensures !r.revs[j].hup && !r.revs[j].err {
      assert !Bad(r.revs[j]);
    }
    hide NoErrors, Calm, Bad;
    forall i | 0 <= i < |p.clients| && !p.revs[i].hup && !p.revs[i].err ensures p.clients[i] in r.clients {
      CalmStays(p.clients, p.revs, i);
      CalmAmong(r.clients, r.revs, p.clients[i]);
    }
  }

  /** Nothing was reported for new clients. */
  function Quiets(n: nat): (revs: seq<Revents>)
    ensures |revs| == n && forall k :: 0 <= k < n ==> revs[k] == QUIET
  {
    seq(n, _ => QUIET)
  }

  // ---------------------------------------------------------------- pipes

  /** The step reads for the client that owns the pipe. */
  predicate ReadsFrom(w: World, s: Step, pipe: int) {
    s.ReadPipe? && s.i < |w.sessions| && w.sessions[s.i].client.readPipe == pipe
  }

  /** The pipes still to be looked at: behind one that ended, the next one is passed over. */
  function LeftBehind(pipes: seq<int>, read: PipeRead): seq<int>
    requires |pipes| > 0
  {
    if read == Bytes || |pipes| == 1 then pipes[1..] else pipes[2..]
  }

  /** Every pipe looked at is read, once, exactly when data or its end was reported. */
  predicate PipeTurns(w: World, pipes: seq<int>, poll: seq<PollFd>, steps: seq<Step>)
    decreases |pipes|
  {
    if |pipes| == 0 then steps == []
    else if !Reported(poll, pipes[0]) then PipeTurns(w, pipes[1..], poll, steps)
    else
      && |steps| > 0 && ReadsFrom(w, steps[0], pipes[0])
      && PipeTurns(w, LeftBehind(pipes, steps[0].read), poll, steps[1..])
  }

  /** With `steps` taken, the pipes in `left` are still to be looked at. */
  ghost predicate Continues(w: World, pipes: seq<int>, poll: seq<PollFd>, steps: seq<Step>, left: seq<int>) {
    forall more :: PipeTurns(w, left, poll, more) ==> PipeTurns(w, pipes, poll, steps + more)
  }

  lemma ContinuesFirst(w: World, pipes: seq<int>, poll: seq<PollFd>)
    ensures Continues(w, pipes, poll, [], pipes)
  {
    forall more | PipeTurns(w, pipes, poll, more) ensures PipeTurns(w, pipes, poll, [] + more) {
      assert [] + more == more;
    }
  }

  lemma ContinuesQuiet(w: World, pipes: seq<int>, poll: seq<PollFd>, steps: seq<Step>, left: seq<int>)
    requires Continues(w, pipes, poll, steps, left) && |left| > 0 && !Reported(poll, left[0])
    ensures Continues(w, pipes, poll, steps, left[1..])
  {
    forall more | PipeTurns(w, left[1..], poll, more) ensures PipeTurns(w, pipes, poll, steps + more) {
      assert PipeTurns(w, left, poll, more);
    }
  }

  lemma ContinuesRead(w: World, pipes: seq<int>, poll: seq<PollFd>, steps: seq<Step>, left: seq<int>, s: Step)
    requires Continues(w, pipes, poll, steps, left) && |left| > 0 && Reported(poll, left[0]) && ReadsFrom(w, s, left[0])
    ensures Continues(w, pipes, poll, steps + [s], LeftBehind(left, s.read))
  {
    forall more | PipeTurns(w, LeftBehind(left, s.read), poll, more) ensures PipeTurns(w, pipes, poll, steps + [s] + more) {
      assert ([s] + more)[1..] == more;
      assert PipeTurns(w, left, poll, [s] + more);
      assert steps + [s] + more == steps + ([s] + more);
    }
  }

  lemma ContinuesLast(w: World, pipes: seq<int>, poll: seq<PollFd>, steps: seq<Step>)
    requires Continues(w, pipes, poll, steps, [])
    ensures PipeTurns(w, pipes, poll, steps)
  {
    assert PipeTurns(w, [], poll, []);
    assert steps + [] == steps;
  }

  /** Only what was reported for the pipes themselves matters. */
  lemma {:induction false} PipeTurnsSame(w: World, pipes: seq<int>, poll: seq<PollFd>, polled: seq<PollFd>, steps: seq<Step>)
    requires forall p :: p in pipes ==> (Reported(poll, p) <==> Reported(polled, p))
    requires PipeTurns(w, pipes, poll, steps)
    ensures PipeTurns(w, pipes, polled, steps)
    decreases |pipes|
  {
    hide Reported;
    if |pipes| > 0 {
      assert pipes[0] in pipes;
      if Reported(poll, pipes[0]) {
        PipeTurnsSame(w, LeftBehind(pipes, steps[0].read), poll, polled, steps[1..]);
      } else {
        PipeTurnsSame(w, pipes[1..], poll, polled, steps);
      }
    }
  }

  lemma SetSame(poll: seq<PollFd>, k: nat)
    requires k < |poll|
    ensures SetEvents(poll, k, poll[k].events) == poll
  {
  }

  /** The pipes from the `j`-th on. */
  function Later(pipes: seq<int>, j: nat): seq<int> {
    if j <= |pipes| then pipes[j..] else []
  }

  lemma LaterAll(pipes: seq<int>)
    ensures Later(pipes, 0) == pipes
  {
  }

  lemma LaterFirst(pipes: seq<int>, j: nat)
    requires j < |pipes|
    ensures |Later(pipes, j)| > 0 && Later(pipes, j)[0] == pipes[j] && Later(pipes, j)[1..] == Later(pipes, j + 1)
  {
  }

  lemma LaterLast(pipes: seq<int>, j: nat)
    requires j >= |pipes|
    ensures Later(pipes, j) == []
  {
  }

  /** When the `j`-th pipe goes, the one behind it moves into its place. */
  lemma LaterRemove(pipes: seq<int>, j: nat)
    requires j < |pipes|
    ensures forall read :: LeftBehind(Later(pipes, j), read)
                           == Later(if read == Bytes then pipes else RemoveAt(pipes, j), j + 1)
  {
    assert Later(pipes, j)[1..] == Later(pipes, j + 1);
    if j + 1 < |pipes| {
      assert RemoveAt(pipes, j)[j + 1..] == pipes[j + 2..];
    }
  }

  /** The pipes and their entries, and that no two entries are for the same descriptor. */
  lemma EntriesAre(clients: seq<Client>, poll: seq<PollFd>, w: World)
    requires Shows(clients, poll, w)
    ensures |poll| == |w.listen| + |clients| + |w.pipes| && |clients| == |w.sessions| && Distinct(w.pipes)
    ensures forall i :: 0 <= i < |clients| ==> clients[i] == w.sessions[i].client
    ensures forall k :: |w.listen| + |clients| <= k < |poll| ==> poll[k].fd == w.pipes[k - |w.listen| - |clients|]
    ensures forall a, b :: 0 <= a < b < |poll| ==> poll[a].fd != poll[b].fd
  {
    LaidMeans(poll, w);
    PollIsDistinct(poll, w);
    DistinctParts(w);
  }

  lemma WithoutAt(pipes: seq<int>, j: nat)
    requires Distinct(pipes) && j < |pipes|
    ensures Without(pipes, pipes[j]) == RemoveAt(pipes, j)
  {
    assert pipes[j] in pipes;
  }

  /** When the script of entry `k` ends, its pipe goes. */
  lemma PipesAfterRead(clients: seq<Client>, poll: seq<PollFd>, w: World, s: Step, k: nat)
    requires Shows(clients, poll, w) && s.ReadPipe? && Enabled(w, s) && s.i < |clients|
    requires |w.listen| + |clients| <= k < |poll| && poll[k].fd == clients[s.i].readPipe
    ensures k - |w.listen| - |clients| < |w.pipes|
    ensures Apply(w, s).pipes == if s.read == Bytes then w.pipes else RemoveAt(w.pipes, k - |w.listen| - |clients|)
  {
    EntriesAre(clients, poll, w);
    WithoutAt(w.pipes, k - |w.listen| - |clients|);
    hide Shows, Without, RemoveAt;
  }

  lemma ClientsAre(clients: seq<Client>, poll: seq<PollFd>, w: World)
    requires Shows(clients, poll, w)
    ensures ClientsOf(w.sessions) == clients
  {
  }

  lemma NoPipes(clients: seq<Client>, poll: seq<PollFd>, w: World, polled: seq<PollFd>)
    requires Shows(clients, poll, w)
    ensures |poll| <= |w.listen| + |clients| ==> PipeTurns(w, w.pipes, polled, [])
  {
    LaidLength(poll, w);
  }

  /** The entries behind the first `n`. */
  function Behind(poll: seq<PollFd>, n: nat): seq<PollFd> {
    if n <= |poll| then poll[n..] else []
  }

  predicate Within(a: seq<PollFd>, b: seq<PollFd>) {
    forall e :: e in a ==> e in b
  }

  lemma WithinSelf(a: seq<PollFd>)
    ensures Within(a, a)
  {
  }

  lemma BehindRemove(poll: seq<PollFd>, n: nat, i: nat)
    requires i < |poll|
    ensures i < n ==> Behind(RemoveAt(poll, i), n - 1) == Behind(poll, n)
    ensures n <= i ==> Within(Behind(RemoveAt(poll, i), n), Behind(poll, n))
  {
    var r := RemoveAt(poll, i);
    if n <= i {
      forall e | e in r[n..] ensures e in poll[n..] {
        var k :| n <= k < |r| && r[k] == e;
        assert r[k] == poll[if k < i then k else k + 1];
      }
    } else if n <= |poll| {
      assert r[n - 1..] == poll[n..];
    }
  }

  lemma BehindInsert(poll: seq<PollFd>, n: nat, x: PollFd)
    requires n <= |poll|
    ensures Behind(InsertAt(poll, n, x), n + 1) == Behind(poll, n)
  {
  }

  lemma RevsInsert(poll: seq<PollFd>, start: nat, n: nat, fd: int)
    requires start + n <= |poll|
    ensures RevsOf(InsertAt(poll, start + n, PollFd(fd, IN, QUIET)), start, n + 1) == RevsOf(poll, start, n) + [QUIET]
  {
  }

  lemma QuietsNext(revs: seq<Revents>, n: nat)
    ensures revs + Quiets(n) + [QUIET] == revs + Quiets(n + 1) && revs + Quiets(0) == revs
  {
  }

  /** The pipes' entries are still those that `poll` left. */
  lemma PipesReported(clients: seq<Client>, poll: seq<PollFd>, w: World, polled: seq<PollFd>)
    requires Shows(clients, poll, w) && Within(Behind(poll, |w.listen| + |clients|), polled)
    requires forall a, b :: 0 <= a < b < |polled| ==> polled[a].fd != polled[b].fd
    ensures forall p :: p in w.pipes ==> (Reported(poll, p) <==> Reported(polled, p))
  {
    hide Shows, Reported, Distinct, Behind, Within;
    EntriesAre(clients, poll, w);
    var n := |w.listen| + |clients|;
    forall p | p in w.pipes ensures Reported(poll, p) <==> Reported(polled, p) {
      var j :| 0 <= j < |w.pipes| && w.pipes[j] == p;
      EntryStays(poll, polled, n, n + j);
    }
  }

  lemma EntryStays(poll: seq<PollFd>, polled: seq<PollFd>, n: nat, k: nat)
    requires n <= k < |poll| && Within(Behind(poll, n), polled)
    requires forall a, b :: 0 <= a < b < |poll| ==> poll[a].fd != poll[b].fd
    requires forall a, b :: 0 <= a < b < |polled| ==> polled[a].fd != polled[b].fd
    ensures Reported(poll, poll[k].fd) <==> Reported(polled, poll[k].fd)
  {
    var e := poll[k];
    assert e == Behind(poll, n)[k - n];
    assert e in polled;
    hide Reported, Within, Behind;
    OnlyEntry(poll, e);
    OnlyEntry(polled, e);
  }

  /** When no other entry has its descriptor, an entry alone decides. */
  lemma OnlyEntry(poll: seq<PollFd>, e: PollFd)
    requires e in poll && forall a, b :: 0 <= a < b < |poll| ==> poll[a].fd != poll[b].fd
    ensures Reported(poll, e.fd) <==> e.revents.input || e.revents.hup
  {
    forall d | d in poll && d.fd == e.fd ensures d == e {
      var a :| 0 <= a < |poll| && poll[a] == d;
      var b :| 0 <= b < |poll| && poll[b] == e;
      assert a == b;
    }
  }

  // ---------------------------------------------------------------- the turn

  /** A client is as it was but for the time it has left. */
  predicate SameButRemaining(cs: seq<Client>, ds: seq<Client>) {
    |cs| == |ds| && forall i :: 0 <= i < |cs| ==> ds[i] == cs[i].(remaining := ds[i].remaining)
  }

  /**
   * A turn's stages: the clients that wait, the state when all new clients are there, the reads from
   * pipes, and the state and reports with which the requests and responses begin.
   */
  datatype Stages = Stages(waiting: seq<Client>, present: World, pipeReads: seq<Step>, start: World, revs: seq<Revents>)

  /** Of the clients at the poll those that neither timed out nor were closed for an error, with their own reports. */
  function Kept(waiting: seq<Client>, polled: seq<PollFd>, openPort: nat, now: int): (r: Roster)
    ensures Full(r)
  {
    NoErrors(Swept(Roster(waiting, RevsOf(polled, openPort, |waiting|)), now), 0, openPort)
  }

  /** Behind the clients that were kept there is a new one for each readable listening socket, with nothing reported. */
  ghost predicate Gathered(waiting: seq<Client>, p: Roster, polled: seq<PollFd>, openPort: nat, hints: seq<seq<nat>>, now: int)
    requires openPort <= |hints|
  {
    var kept := Kept(waiting, polled, openPort, now);
    && |kept.clients| <= |p.clients| && p.clients[..|kept.clients|] == kept.clients
    && Arrived(p.clients[|kept.clients|..], hints, RevsOf(polled, 0, openPort), now)
    && p.revs == kept.revs + Quiets(|p.clients| - |kept.clients|)
  }

  /**
   * A turn, after which `v` is left: of the waiting clients and the new ones, the reported pipes are
   * read, and then every client there is gets its turn, decided by its own report.
   */
  ghost predicate IsTurn(t: Stages, polled: seq<PollFd>, openPort: nat, hints: seq<seq<nat>>, now: int, v: World)
    requires openPort <= |hints|
  {
    && Gathered(t.waiting, Roster(ClientsOf(t.present.sessions), t.revs), polled, openPort, hints, now)
    && Takes(t.present, t.pipeReads, t.start) && PipeTurns(t.present, t.present.pipes, polled, t.pipeReads)
    && |t.revs| == |t.start.sessions| && Served(t.start, t.revs, now, |v.sessions|, v)
  }
}
