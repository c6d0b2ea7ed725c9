/**
 * The life of one connection, told by the steps taken for it alone
 * (webserv/sources/server/SocketManager.cpp:222-421, webserv/sources/cgi/CGI.cpp:139-189): what may
 * follow what, how many bytes of a script's output are sent, and when it was last active.
 */
module LifeCycle {
  import opened PollFds
  import opened PollLayout
  import Timeouts

  /** `Ended(left)`: the script is over, and `left` bytes are still to be sent; `Lost(kept)`: it broke, and none are. */
  datatype Phase = Waiting | Answering | Answered | Asked | Running | Ended(left: nat) | Lost(kept: nat)

  /** `failed`: the last script that was to be run could not be started, or broke. */
  datatype Life = Life(phase: Phase, failed: bool)

  datatype MaybeLife = Never | Then(life: Life)

  const NEWBORN := Life(Waiting, false)

  /** What a step makes of a connection, if it may come at all. */
  function Next(l: Life, s: Step): MaybeLife {
    match s
    case Touch(_, _) => Then(l)
    case Remaining(_, _) => Then(l)
    case Receive(_, got, _) =>
      if l.phase != Waiting then Never
      else if got == Static then Then(l.(phase := Answering))
      else if got == Cgi then Then(l.(phase := Asked))
      else Then(l)
    case Respond(_, resStatus, _, _) =>
      if l.phase != Answering || (resStatus != Writing && resStatus != WritingDone) then Never
      else Then(if resStatus == WritingDone then l.(phase := Answered) else l)
    case StartCgi(_, _, _, _) => if l.phase == Asked then Then(Life(Running, false)) else Never
    case FailCgi(_, _, _) => if l.phase == Asked then Then(Life(Asked, true)) else Never
    case ReadPipe(_, read) =>
      if l.phase != Running then Never
      else (match read
            case Bytes => Then(l)
            case Eof(output) => Then(Life(Ended(output), false))
            case Broken(output) => Then(Life(Lost(output), true)))
    case SendCgi(_, bytes, _) =>
      if l.phase.Ended? && bytes <= l.phase.left then Then(l.(phase := Ended(l.phase.left - bytes))) else Never
    case NextRequest(_, _) =>
      if l.phase == Answered || l.phase == Ended(0) || (l.phase == Asked && l.failed) then Then(l.(phase := Waiting)) else Never
    case Accept(_, _, _, _) => Never
    case Disconnect(_) => Never
  }

  /** The life after several steps. */
  function After(l: Life, steps: seq<Step>): MaybeLife
    decreases |steps|
  {
    if |steps| == 0 then Then(l)
    else match Next(l, steps[0])
         case Never => Never
         case Then(m) => After(m, steps[1..])
  }

  // ---------------------------------------------------------------- the steps of one connection

  predicate At(w: World, i: nat, fd: int) {
    i < |w.sessions| && w.sessions[i].client.fd == fd
  }

  predicate About(w: World, s: Step, fd: int) {
    !s.Accept? && At(w, s.i, fd)
  }

  /** The steps of a run that are about one connection. */
  function Own(w: World, steps: seq<Step>, fd: int): seq<Step>
    requires Legal(w, steps)
    decreases |steps|
  {
    if |steps| == 0 then []
    else (if About(w, steps[0], fd) then [steps[0]] else []) + Own(Apply(w, steps[0]), steps[1..], fd)
  }

  /** The connection is not closed by any of the steps. */
  predicate Lives(w: World, steps: seq<Step>, fd: int)
    requires Legal(w, steps)
  {
    forall k :: 0 <= k < |Own(w, steps, fd)| ==> !Own(w, steps, fd)[k].Disconnect?
  }

  /** The life that the fields of a client and the mask of its socket stand for. */
  function LifeOf(s: Session): Life {
    var c := s.client;
    Life(
      if s.mask == IN then Waiting
      else if s.mask == NONE then Running
      else if c.status != CgiReq then (if c.resStatus == WritingDone then Answered else Answering)
      else if !c.alreadyExec then Asked
      else if c.cgiState == CgiDone then Ended(c.output)
      else Lost(c.output),
      c.cgiState == CgiFailed)
  }

  /** When a connection was last active, and how long it may be idle. */
  datatype Clock = Clock(active: int, timeOut: int)

  /** Bytes from and to the peer and the start of a script count as activity; a script has a time-out of its own. */
  function Tick(l: Life, k: Clock, s: Step): Clock {
    match s
    case Receive(_, _, now) => k.(active := now)
    case Touch(_, now) => k.(active := now)
    case Respond(_, _, _, now) => k.(active := now)
    case SendCgi(_, _, now) => k.(active := now)
    case StartCgi(_, _, now, timeOut) => Clock(now, timeOut)
    case FailCgi(_, now, timeOut) => Clock(now, timeOut)
    case NextRequest(_, timeOut) => if l.phase == Answered then k else k.(timeOut := timeOut)
    case _ => k
  }

  function Ticks(l: Life, k: Clock, steps: seq<Step>): Clock
    decreases |steps|
  {
    if |steps| == 0 || Next(l, steps[0]) == Never then k
    else Ticks(Next(l, steps[0]).life, Tick(l, k, steps[0]), steps[1..])
  }

  function ClockOf(s: Session): Clock {
    Clock(s.client.startTime, s.client.timeOut)
  }

  lemma OwnStep(w: World, s: Step, i: nat)
    requires Inv(w) && Enabled(w, s) && !s.Accept? && !s.Disconnect? && s.i == i
    ensures i < |w.sessions| && i < |Apply(w, s).sessions|
    ensures Apply(w, s).sessions[i].client.fd == w.sessions[i].client.fd
    ensures Next(LifeOf(w.sessions[i]), s) == Then(LifeOf(Apply(w, s).sessions[i]))
    ensures ClockOf(Apply(w, s).sessions[i]) == Tick(LifeOf(w.sessions[i]), ClockOf(w.sessions[i]), s)
  {
    assert ClientOk(w.sessions[i].client, w.sessions[i].mask);
    DistinctParts(w);
  }

  /** What the fields allow is exactly what the life allows; a script needs a new descriptor for its pipe. */
  lemma EnabledIff(w: World, s: Step)
    requires Inv(w) && !s.Accept? && !s.Disconnect? && s.i < |w.sessions|
    ensures Enabled(w, s) <==> Next(LifeOf(w.sessions[s.i]), s) != Never && (s.StartCgi? ==> NewFd(w, s.pipe))
  {
    assert ClientOk(w.sessions[s.i].client, w.sessions[s.i].mask);
    DistinctParts(w);
  }

  lemma OtherStep(w: World, s: Step, i: nat) returns (j: nat)
    requires Inv(w) && Enabled(w, s) && i < |w.sessions| && (s.Accept? || s.i != i)
    ensures j < |Apply(w, s).sessions| && Apply(w, s).sessions[j] == w.sessions[i]
  {
    j := if s.Disconnect? && s.i < i then i - 1 else i;
  }

  /** No two connections have the same descriptor. */
  lemma OnlyOne(w: World, i: nat, j: nat, fd: int)
    requires Inv(w) && At(w, i, fd) && At(w, j, fd)
    ensures i == j
  {
    DistinctParts(w);
    assert ClientFds(w.sessions)[i] == ClientFds(w.sessions)[j];
  }

  /**
   * In every legal run, the steps about a connection that stays open are a life: what its client is at
   * the end follows from them alone, and so do its time-out and the time from which it is counted.
   */
  lemma {:induction false} RunIsLife(w: World, steps: seq<Step>, fd: int, i: nat) returns (j: nat)
    requires Inv(w) && Legal(w, steps) && At(w, i, fd) && Lives(w, steps, fd)
    ensures At(Run(w, steps), j, fd)
    ensures After(LifeOf(w.sessions[i]), Own(w, steps, fd)) == Then(LifeOf(Run(w, steps).sessions[j]))
    ensures ClockOf(Run(w, steps).sessions[j])
         == Ticks(LifeOf(w.sessions[i]), ClockOf(w.sessions[i]), Own(w, steps, fd))
    decreases |steps|
  {
    if |steps| == 0 {
      j := i;
    } else {
      var s, v := steps[0], Apply(w, steps[0]);
      var own := Own(v, steps[1..], fd);
      StepKeeps(w, s);
      if About(w, s, fd) {
        assert Own(w, steps, fd) == [s] + own;
        assert !([s] + own)[0].Disconnect?;
        OnlyOne(w, s.i, i, fd);
        OwnStep(w, s, i);
        LivesOn(w, steps, fd);
        hide Enabled, Apply, Inv, Next, LifeOf, Tick, ClockOf;
        j := RunIsLife(v, steps[1..], fd, i);
        assert ([s] + own)[1..] == own;
      } else {
        assert Own(w, steps, fd) == own;
        var k := OtherStep(w, s, i);
        LivesOn(w, steps, fd);
        hide Enabled, Apply, Inv, Next, LifeOf, Tick, ClockOf;
        j := RunIsLife(v, steps[1..], fd, k);
      }
    }
  }

  lemma LivesOn(w: World, steps: seq<Step>, fd: int)
    requires Legal(w, steps) && |steps| > 0 && Lives(w, steps, fd)
    ensures Lives(Apply(w, steps[0]), steps[1..], fd)
  {
    var own := Own(Apply(w, steps[0]), steps[1..], fd);
    forall k | 0 <= k < |own| ensures !own[k].Disconnect? {
      if About(w, steps[0], fd) {
        assert Own(w, steps, fd)[k + 1] == own[k];
      } else {
        assert Own(w, steps, fd)[k] == own[k];
      }
    }
  }

  predicate IsAt(s: Step, i: nat) {
    !s.Accept? && !s.Disconnect? && s.i == i
  }

  /** The pipe of a script is new, and the script is started last. */
  predicate NewPipes(w: World, steps: seq<Step>) {
    forall k :: 0 <= k < |steps| && steps[k].StartCgi? ==> k == |steps| - 1 && NewFd(w, steps[k].pipe)
  }

  lemma StillNew(w: World, steps: seq<Step>)
    requires Inv(w) && |steps| > 0 && Enabled(w, steps[0]) && !steps[0].Accept? && NewPipes(w, steps)
    ensures NewPipes(Apply(w, steps[0]), steps[1..])
  {
    forall fd | |steps| > 1 && NewFd(w, fd) ensures NewFd(Apply(w, steps[0]), fd) {
      NoMoreFds(w, steps[0], fd);
    }
    hide Apply, Enabled, Inv, NewFd;
  }

  lemma NoMoreFds(w: World, s: Step, fd: int)
    requires Enabled(w, s) && !s.Accept? && !s.StartCgi? && NewFd(w, fd)
    ensures NewFd(Apply(w, s), fd)
  {
    var v := Apply(w, s);
    forall k | 0 <= k < |v.sessions| ensures v.sessions[k].client.fd != fd {
      var j := if s.Disconnect? && k >= s.i then k + 1 else k;
      assert v.sessions[k].client.fd == w.sessions[j].client.fd == ClientFds(w.sessions)[j];
    }
    assert forall p :: p in v.pipes ==> p in w.pipes;
  }

  /** And every life can be led: steps that it allows make a legal run. */
  lemma {:induction false} LifeIsRun(w: World, i: nat, steps: seq<Step>)
    requires Inv(w) && i < |w.sessions| && NewPipes(w, steps) && forall k :: 0 <= k < |steps| ==> IsAt(steps[k], i)
    requires After(LifeOf(w.sessions[i]), steps) != Never
    ensures Legal(w, steps) && i < |Run(w, steps).sessions|
    ensures Then(LifeOf(Run(w, steps).sessions[i])) == After(LifeOf(w.sessions[i]), steps)
    decreases |steps|
  {
    if |steps| > 0 {
      EnabledIff(w, steps[0]);
      OwnStep(w, steps[0], i);
      StepKeeps(w, steps[0]);
      StillNew(w, steps);
      hide Inv, Enabled, Apply, Next, LifeOf, NewFd, ClockOf, Tick;
      LifeIsRun(Apply(w, steps[0]), i, steps[1..]);
    }
  }

  /** A new client is at the beginning of such a life, and the time of its arrival counts. */
  lemma AcceptIsBirth(w: World, s: Step)
    requires Inv(w) && Enabled(w, s) && s.Accept?
    ensures var v, n := Apply(w, s), |w.sessions|;
            At(v, n, s.fd) && LifeOf(v.sessions[n]) == NEWBORN && ClockOf(v.sessions[n]) == Clock(s.now, s.timeOut)
  {
  }

  // ---------------------------------------------------------------- what a script wrote is what is sent

  /** The bytes of script output that some steps send. */
  function SentBytes(steps: seq<Step>): nat {
    if |steps| == 0 then 0 else (if steps[0].SendCgi? then steps[0].bytes else 0) + SentBytes(steps[1..])
  }

  predicate NoRequest(steps: seq<Step>) {
    forall k :: 0 <= k < |steps| ==> !steps[k].NextRequest?
  }

  /** Until the next request the bytes sent and those left make up the output. */
  lemma {:induction false} SentAndLeft(l: Life, steps: seq<Step>)
    requires l.phase.Ended? && NoRequest(steps) && After(l, steps) != Never
    ensures After(l, steps).life.phase.Ended?
    ensures SentBytes(steps) + After(l, steps).life.phase.left == l.phase.left
    decreases |steps|
  {
    if |steps| > 0 {
      SentAndLeft(Next(l, steps[0]).life, steps[1..]);
    }
  }

  lemma {:induction false} AfterThen(l: Life, a: seq<Step>, b: seq<Step>)
    ensures After(l, a + b) == match After(l, a) case Never => Never case Then(m) => After(m, b)
    decreases |a|
  {
    if |a| == 0 {
      assert a + b == b;
    } else {
      assert (a + b)[1..] == a[1..] + b;
      if Next(l, a[0]) != Never {
        AfterThen(Next(l, a[0]).life, a[1..], b);
      }
    }
  }

  /** A life in which a script ends and the next request is waited for sends the output in between, and no more. */
  lemma WholeOutput(l: Life, end: Step, between: seq<Step>, next: Step)
    requires end.ReadPipe? && end.read.Eof? && next.NextRequest? && NoRequest(between)
    requires After(l, [end] + between + [next]) != Never
    ensures SentBytes(between) == end.read.output
  {
    var m := Next(l, end).life;
    assert [end] + between + [next] == [end] + (between + [next]);
    assert ([end] + (between + [next]))[1..] == between + [next];
    AfterThen(m, between, [next]);
    SentAndLeft(m, between);
    assert Next(After(m, between).life, next) != Never;
  }

  /**
   * In every legal run: when a connection's script ended with a response of `n` bytes and the
   * connection later waits for its next request, exactly `n` bytes were sent in between.
   */
  lemma OutputIsSent(w: World, steps: seq<Step>, fd: int, i: nat, end: Step, between: seq<Step>, next: Step)
    requires Inv(w) && Legal(w, steps) && At(w, i, fd) && Lives(w, steps, fd)
    requires Own(w, steps, fd) == [end] + between + [next]
    requires end.ReadPipe? && end.read.Eof? && next.NextRequest? && NoRequest(between)
    ensures SentBytes(between) == end.read.output
  {
    var j := RunIsLife(w, steps, fd, i);
    WholeOutput(LifeOf(w.sessions[i]), end, between, next);
  }

  /** A client times out when its time-out has passed since it was last active. */
  lemma ExpiresAfterActivity(w: World, steps: seq<Step>, fd: int, i: nat, now: int) returns (j: nat)
    requires Inv(w) && Legal(w, steps) && At(w, i, fd) && Lives(w, steps, fd)
    ensures At(Run(w, steps), j, fd)
    ensures var c := Run(w, steps).sessions[j].client;
            var k := Ticks(LifeOf(w.sessions[i]), ClockOf(w.sessions[i]), Own(w, steps, fd));
            Timeouts.Expired(c, now) <==> now - k.active >= k.timeOut
  {
    j := RunIsLife(w, steps, fd, i);
  }
}
