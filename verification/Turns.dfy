/**
 * What the server does for one client in one turn of its main loop, as the list of steps taken,
 * decided by what `poll` reported for the client's socket
 * (webserv/sources/server/SocketManager.cpp:222-345).
 */
module Turns {
  import opened PollFds
  import opened PollLayout

  const CGI_SEND_BUFFER := 4096

  /** `steps` leads from `w` to `v`. */
  predicate Takes(w: World, steps: seq<Step>, v: World) {
    Legal(w, steps) && Run(w, steps) == v
  }

  /** Something was received, or the peer is gone. */
  predicate InputTurn(i: nat, now: int, steps: seq<Step>) {
    |steps| == 1 && (steps[0] == Disconnect(i) || (steps[0].Receive? && steps[0].i == i && steps[0].now == now))
  }

  predicate IsReuse(i: nat, s: Step) {
    s.NextRequest? && s.i == i
  }

  /** A script is started once; its output is sent after its end, one buffer a turn. */
  predicate ScriptTurn(c: Client, i: nat, now: int, steps: seq<Step>) {
    if !c.alreadyExec then
      || (|steps| == 1 && steps[0].StartCgi? && steps[0].i == i && steps[0].now == now)
      || (|steps| == 2 && steps[0].FailCgi? && steps[0].i == i && steps[0].now == now
          && (steps[1] == Disconnect(i) || IsReuse(i, steps[1])))
    else if c.cgiState != CgiDone then steps == []
    else if c.output == 0 then |steps| == 1 && IsReuse(i, steps[0])
    else
      || steps == []
      || steps == [Disconnect(i)]
      || (|steps| == 1 && steps[0].SendCgi? && steps[0].i == i && steps[0].now == now
          && 0 < steps[0].bytes <= c.output && steps[0].bytes <= CGI_SEND_BUFFER)
  }

  predicate Finished(closing: bool, i: nat, steps: seq<Step>) {
    |steps| == 1 && (if closing then steps[0] == Disconnect(i) else IsReuse(i, steps[0]))
  }

  /** A static response is sent one buffer a turn, and after the last one the connection is closed or used again. */
  predicate StaticTurn(c: Client, i: nat, now: int, steps: seq<Step>) {
    if c.resStatus == WritingDone then Finished(c.closing, i, steps)
    else
      && |steps| > 0 && steps[0].Respond? && steps[0].i == i && steps[0].now == now
      && (|| steps[1..] == []
          || steps[1..] == [Disconnect(i)]
          || (steps[0].resStatus == WritingDone && Finished(steps[0].closing, i, steps[1..])))
  }

  predicate ResponseTurn(c: Client, i: nat, now: int, steps: seq<Step>) {
    if c.status == CgiReq then ScriptTurn(c, i, now, steps) else StaticTurn(c, i, now, steps)
  }

  predicate OutputTurn(c: Client, i: nat, now: int, steps: seq<Step>) {
    |steps| > 0 && steps[0] == Touch(i, now) && ResponseTurn(c, i, now, steps[1..])
  }

  /** The whole turn. */
  predicate ClientTurn(c: Client, i: nat, r: Revents, now: int, steps: seq<Step>) {
    if r.input then InputTurn(i, now, steps)
    else if r.output then OutputTurn(c, i, now, steps)
    else steps == []
  }

  predicate AllReadPipes(steps: seq<Step>) {
    forall k :: 0 <= k < |steps| ==> steps[k].ReadPipe?
  }

  /** The turn ends with the client's removal. */
  predicate Leaves(steps: seq<Step>) {
    |steps| > 0 && steps[|steps| - 1].Disconnect?
  }

  /**
   * The clients at the front of `w` had their turns, one for each entry of `revs` and in that order;
   * `at` of them are still there, and `v` is what they made of `w`.
   */
  ghost predicate Served(w: World, revs: seq<Revents>, now: int, at: nat, v: World)
    decreases |revs|
  {
    if |revs| == 0 then v == w && at == 0
    else
      exists u: World, a: nat, steps: seq<Step> {:trigger Served(w, revs[..|revs| - 1], now, a, u), Takes(u, steps, v)} ::
        && Served(w, revs[..|revs| - 1], now, a, u) && a < |u.sessions|
        && ClientTurn(u.sessions[a].client, a, revs[|revs| - 1], now, steps)
        && Takes(u, steps, v) && at == if Leaves(steps) then a else a + 1
  }

  // ---------------------------------------------------------------- runs

  lemma TakesNone(w: World)
    ensures Takes(w, [], w)
  {
  }

  lemma TakesOne(w: World, s: Step)
    requires Enabled(w, s)
    ensures Takes(w, [s], Apply(w, s))
  {
    assert Legal(Apply(w, s), []);
  }

  lemma TakesThen(u: World, a: seq<Step>, v: World, b: seq<Step>, w: World)
    requires Takes(u, a, v) && Takes(v, b, w)
    ensures Takes(u, a + b, w)
  {
    RunAppend(u, a, b);
  }

  lemma TakesReaches(w: World, steps: seq<Step>, v: World)
    requires Takes(w, steps, v)
    ensures Reaches(w, v)
  {
  }

  lemma ServedNone(w: World, now: int)
    ensures Served(w, [], now, 0, w)
  {
  }

  lemma ServedNext(w: World, revs: seq<Revents>, r: Revents, now: int, at: nat, u: World, steps: seq<Step>, v: World)
    requires Served(w, revs, now, at, u) && at < |u.sessions|
    requires ClientTurn(u.sessions[at].client, at, r, now, steps) && Takes(u, steps, v)
    ensures Served(w, revs + [r], now, if Leaves(steps) then at else at + 1, v)
  {
    var all := revs + [r];
    assert all[..|all| - 1] == revs && all[|all| - 1] == r;
    hide ClientTurn;
  }

  /** A step about client `i` alone that does not remove it. */
  predicate Stays(s: Step, i: nat) {
    match s
    case Accept(_, _, _, _) => false
    case Disconnect(_) => false
    case Receive(k, _, _) => k == i
    case Touch(k, _) => k == i
    case StartCgi(k, _, _, _) => k == i
    case FailCgi(k, _, _) => k == i
    case ReadPipe(k, _) => k == i
    case SendCgi(k, _, _) => k == i
    case Respond(k, _, _, _) => k == i
    case NextRequest(k, _) => k == i
    case Remaining(k, _) => k == i
  }

  /** Steps about client `i`, the last of which may remove it. */
  predicate AllAt(steps: seq<Step>, i: nat)
    decreases |steps|
  {
    |steps| == 0 || (steps == [Disconnect(i)]) || (Stays(steps[0], i) && AllAt(steps[1..], i))
  }

  lemma TurnIsAllAt(c: Client, i: nat, r: Revents, now: int, steps: seq<Step>)
    requires ClientTurn(c, i, r, now, steps)
    ensures AllAt(steps, i)
  {
    if |steps| > 1 {
      assert AllAt(steps[1..][1..], i);
    }
  }

  lemma StayKeepsOthers(w: World, s: Step, i: nat)
    requires Enabled(w, s) && Stays(s, i) && i < |w.sessions|
    ensures |Apply(w, s).sessions| == |w.sessions|
    ensures Apply(w, s).sessions[..i] == w.sessions[..i] && Apply(w, s).sessions[i + 1..] == w.sessions[i + 1..]
  {
  }

  /** A turn changes nothing but its client. */
  lemma {:induction false} TurnKeepsOthers(w: World, i: nat, steps: seq<Step>, v: World)
    requires Takes(w, steps, v) && AllAt(steps, i) && i < |w.sessions|
    ensures i <= |v.sessions| && v.sessions[..i] == w.sessions[..i]
    ensures Leaves(steps) ==> v.sessions[i..] == w.sessions[i + 1..]
    ensures !Leaves(steps) ==> i < |v.sessions| && v.sessions[i + 1..] == w.sessions[i + 1..]
    decreases |steps|
  {
    if |steps| == 0 {
    } else if steps == [Disconnect(i)] {
      assert Run(w, steps) == Apply(w, steps[0]);
    } else {
      StayKeepsOthers(w, steps[0], i);
      TurnKeepsOthers(Apply(w, steps[0]), i, steps[1..], v);
      assert |steps| > 1 ==> steps[1..][|steps| - 2] == steps[|steps| - 1];
    }
  }

  /** Nobody is passed over or served twice: the clients that wait are the ones behind the served, untouched. */
  lemma {:induction false} ServedRest(w: World, revs: seq<Revents>, now: int, at: nat, v: World)
    requires Served(w, revs, now, at, v) && |revs| <= |w.sessions|
    ensures at <= |revs| && at <= |v.sessions| && v.sessions[at..] == w.sessions[|revs|..]
    decreases |revs|
  {
    if |revs| > 0 {
      var n := |revs| - 1;
      var u: World, a: nat, steps: seq<Step> :|
        && Served(w, revs[..n], now, a, u) && a < |u.sessions|
        && ClientTurn(u.sessions[a].client, a, revs[n], now, steps)
        && Takes(u, steps, v) && at == if Leaves(steps) then a else a + 1;
      ServedRest(w, revs[..n], now, a, u);
      TurnIsAllAt(u.sessions[a].client, a, revs[n], now, steps);
      TurnKeepsOthers(u, a, steps, v);
      assert u.sessions[a + 1..] == u.sessions[a..][1..] && w.sessions[n + 1..] == w.sessions[n..][1..];
      hide ClientTurn, Takes, AllAt, Served;
    }
  }

  lemma TouchedTurn(c: Client, i: nat, now: int, steps: seq<Step>)
    requires ResponseTurn(c.(startTime := now), i, now, steps)
    ensures OutputTurn(c, i, now, [Touch(i, now)] + steps)
    ensures Leaves([Touch(i, now)] + steps) == Leaves(steps)
  {
    assert ([Touch(i, now)] + steps)[1..] == steps;
  }

  /** The reports still to be looked at, after one more turn. */
  lemma RoundStep(was: seq<Revents>, at: nat, revs: seq<Revents>, k: nat, gone: bool)
    requires at < |was| && k <= |revs| && was[at..] == revs[k..]
    ensures k < |revs| && was[at] == revs[k] && revs[..k + 1] == revs[..k] + [revs[k]]
    ensures RemoveAt(was, at)[at..] == revs[k + 1..] && was[at + 1..] == revs[k + 1..]
  {
    assert |was[at..]| == |revs[k..]| && was[at] == was[at..][0] == revs[k..][0];
    assert was[at + 1..] == was[at..][1..] && revs[k + 1..] == revs[k..][1..];
  }

  // ---------------------------------------------------------------- errors and arrivals

  /** POLLHUP, POLLERR or POLLNVAL was reported. */
  predicate Bad(r: Revents) {
    r.hup || r.err
  }

  /** The clients for whose socket no error was reported, in order. */
  function Calm(cs: seq<Client>, revs: seq<Revents>): seq<Client>
    requires |cs| == |revs|
  {
    if |cs| == 0 then [] else (if Bad(revs[0]) then [] else [cs[0]]) + Calm(cs[1..], revs[1..])
  }

  lemma {:induction false} CalmRemove(cs: seq<Client>, revs: seq<Revents>, i: nat)
    requires |cs| == |revs| && i < |cs| && Bad(revs[i])
    ensures Calm(RemoveAt(cs, i), RemoveAt(revs, i)) == Calm(cs, revs)
  {
    if i == 0 {
      assert RemoveAt(cs, 0) == cs[1..] && RemoveAt(revs, 0) == revs[1..];
    } else {
      CalmRemove(cs[1..], revs[1..], i - 1);
      assert RemoveAt(cs, i)[1..] == RemoveAt(cs[1..], i - 1);
      assert RemoveAt(revs, i)[1..] == RemoveAt(revs[1..], i - 1);
    }
  }

  lemma RemoveAtBefore(revs: seq<Revents>, i: nat)
    requires i < |revs|
    ensures forall k :: 0 <= k < i ==> RemoveAt(revs, i)[k] == revs[k]
  {
  }

  /** `cs` are the new clients of the listening sockets that reported input, one each, in their order. */
  predicate Arrived(cs: seq<Client>, hints: seq<seq<nat>>, revs: seq<Revents>, now: int)
    requires |revs| <= |hints|
    decreases |revs|
  {
    if |revs| == 0 then cs == []
    else
      var n := |revs| - 1;
      if !revs[n].input then Arrived(cs, hints, revs[..n], now)
      else
        && |cs| > 0
        && var c := cs[|cs| - 1];
           c == NewClient(c.fd, now, c.timeOut, hints[n]) && Arrived(cs[..|cs| - 1], hints, revs[..n], now)
  }

  lemma NobodyArrived(cs: seq<Client>, hints: seq<seq<nat>>, revs: seq<Revents>, now: int)
    ensures Arrived(cs[|cs|..], hints, revs[..0], now)
  {
  }

  /** One more listening socket looked at; `cs` are all clients so far, `ds` those after it. */
  lemma ArrivedNext(cs: seq<Client>, ds: seq<Client>, n: nat, hints: seq<seq<nat>>, revs: seq<Revents>, i: nat, now: int)
    requires n <= |cs| && i < |revs| <= |hints| && Arrived(cs[n..], hints, revs[..i], now)
    requires if !revs[i].input then ds == cs
             else |ds| == |cs| + 1 && ds[..|cs|] == cs && var c := ds[|cs|]; c == NewClient(c.fd, now, c.timeOut, hints[i])
    ensures n <= |ds| && ds[..n] == cs[..n] && Arrived(ds[n..], hints, revs[..i + 1], now)
  {
    assert revs[..i + 1][..i] == revs[..i];
    if revs[i].input {
      assert ds == cs + [ds[|cs|]];
      assert ds[n..][..|ds[n..]| - 1] == cs[n..];
    }
  }

  /** Data or the end of a pipe was reported. */
  predicate Reported(poll: seq<PollFd>, fd: int) {
    exists e :: e in poll && e.fd == fd && (e.revents.input || e.revents.hup)
  }
}
