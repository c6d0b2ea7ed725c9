/**
 * What one turn makes of a connection, by its life and by what was reported for its socket
 * (webserv/sources/server/SocketManager.cpp:222-345): exactly these phases may follow one another.
 */
module TurnLife {
  import opened PollFds
  import opened PollLayout
  import opened Turns
  import opened LifeCycle

  function PhaseOf(s: Session): Phase {
    LifeOf(s).phase
  }

  /** A turn may lead from `p` to `q`: requests are taken one at a time, and at most 4096 bytes of output go out. */
  predicate MayBecome(p: Phase, closing: bool, r: Revents, q: Phase) {
    if r.input then q == Waiting || q == Answering || q == Asked
    else if !r.output then q == p
    else match p
         case Asked => q == Running || q == Waiting
         case Ended(left) => if left == 0 then q == Waiting else q.Ended? && q.left <= left <= q.left + 4096
         case Answering => q == Answering || q == Answered || q == Waiting
         case Answered => q == Waiting && !closing
         case _ => q == p
  }

  /** A turn may end the connection. */
  predicate MayGo(p: Phase, closing: bool, r: Revents) {
    r.input || (r.output && (p == Asked || p == Answering || (p == Answered && closing) || (p.Ended? && p != Ended(0))))
  }

  /** The socket waits for what was reported. */
  predicate Expected(m: Mask, r: Revents) {
    (r.input ==> m == IN) && (r.output && !r.input ==> m == OUT)
  }

  /** `poll` reports POLLIN and POLLOUT only where they are asked for. */
  lemma PolledIsExpected(c: Client, e: PollFd)
    requires ClientOk(c, e.events) && e.Reported()
    ensures Expected(e.events, e.revents)
  {
  }

  /** The connection is gone, or it is where a turn may lead. */
  predicate Led(s: Session, r: Revents, now: int, i: nat, gone: bool, v: World) {
    if gone then MayGo(PhaseOf(s), s.client.closing, r)
    else
      && At(v, i, s.client.fd)
      && MayBecome(PhaseOf(s), s.client.closing, r, PhaseOf(v.sessions[i]))
      && v.sessions[i].client.startTime == if r.input || r.output then now else s.client.startTime
  }

  /** The first of several steps, as a step of the connection's life. */
  lemma FirstStep(w: World, i: nat, steps: seq<Step>, v: World)
    requires Inv(w) && i < |w.sessions| && Takes(w, steps, v) && |steps| > 0 && IsAt(steps[0], i)
    ensures Enabled(w, steps[0])
    ensures var u := Apply(w, steps[0]);
            && Inv(u) && i < |u.sessions| && At(u, i, w.sessions[i].client.fd) && Takes(u, steps[1..], v)
            && Next(LifeOf(w.sessions[i]), steps[0]) == Then(LifeOf(u.sessions[i]))
            && ClockOf(u.sessions[i]) == Tick(LifeOf(w.sessions[i]), ClockOf(w.sessions[i]), steps[0])
  {
    StepKeeps(w, steps[0]);
    OwnStep(w, steps[0], i);
    hide Inv, Enabled, Apply, LifeOf, Next, Tick, ClockOf;
  }

  lemma NoStep(w: World, v: World)
    requires Takes(w, [], v)
    ensures v == w
  {
  }

  lemma InputLeads(w: World, i: nat, r: Revents, now: int, steps: seq<Step>, v: World)
    requires Inv(w) && i < |w.sessions| && HasMask(w, i, IN) && r.input
    requires InputTurn(i, now, steps) && Takes(w, steps, v)
    ensures Led(w.sessions[i], r, now, i, Leaves(steps), v)
  {
    if !steps[0].Disconnect? {
      FirstStep(w, i, steps, v);
      hide Inv, Enabled, Apply;
      assert steps[1..] == [];
      NoStep(Apply(w, steps[0]), v);
    }
  }

  /** The answer to a request: `s` is the session before its socket was touched. */
  lemma ScriptLeads(s: Session, w: World, i: nat, r: Revents, now: int, steps: seq<Step>, v: World)
    requires Inv(w) && HasMask(w, i, OUT) && w.sessions[i] == s.(client := s.client.(startTime := now))
    requires r.output && !r.input && s.client.status == CgiReq && ScriptTurn(s.client, i, now, steps) && Takes(w, steps, v)
    ensures Led(s, r, now, i, Leaves(steps), v)
  {
    assert ClientOk(w.sessions[i].client, w.sessions[i].mask);
    if steps == [] {
      NoStep(w, v);
    } else if !steps[0].Disconnect? {
      FirstStep(w, i, steps, v);
      hide Inv, Enabled, Apply, ClientOk;
      if |steps| == 1 {
        assert steps[1..] == [];
        NoStep(Apply(w, steps[0]), v);
      } else if !steps[1].Disconnect? {
        FirstStep(Apply(w, steps[0]), i, steps[1..], v);
        assert steps[1..][1..] == [];
        NoStep(Apply(Apply(w, steps[0]), steps[1]), v);
      }
    }
  }

  lemma StaticLeads(s: Session, w: World, i: nat, r: Revents, now: int, steps: seq<Step>, v: World)
    requires Inv(w) && HasMask(w, i, OUT) && w.sessions[i] == s.(client := s.client.(startTime := now))
    requires r.output && !r.input && s.client.status != CgiReq && StaticTurn(s.client, i, now, steps) && Takes(w, steps, v)
    ensures Led(s, r, now, i, Leaves(steps), v)
  {
    if !steps[0].Disconnect? {
      FirstStep(w, i, steps, v);
      hide Inv, Enabled, Apply;
      if |steps| == 1 {
        assert steps[1..] == [];
        NoStep(Apply(w, steps[0]), v);
      } else if !steps[1].Disconnect? {
        FirstStep(Apply(w, steps[0]), i, steps[1..], v);
        assert steps[1..][1..] == [];
        NoStep(Apply(Apply(w, steps[0]), steps[1]), v);
      }
    }
  }

  lemma TouchFirst(w: World, i: nat, now: int, steps: seq<Step>, v: World)
    requires Inv(w) && i < |w.sessions| && Takes(w, steps, v) && |steps| > 0 && steps[0] == Touch(i, now)
    ensures var u := Apply(w, steps[0]);
            && Inv(u) && i < |u.sessions| && Takes(u, steps[1..], v)
            && u.sessions[i] == w.sessions[i].(client := w.sessions[i].client.(startTime := now))
  {
    FirstStep(w, i, steps, v);
    hide Inv;
  }

  /** Every turn leads to one of these phases or ends the connection, and a connection that was served was active. */
  lemma TurnLeads(w: World, i: nat, r: Revents, now: int, steps: seq<Step>, v: World)
    requires Inv(w) && i < |w.sessions| && Expected(w.sessions[i].mask, r)
    requires ClientTurn(w.sessions[i].client, i, r, now, steps) && Takes(w, steps, v)
    ensures Led(w.sessions[i], r, now, i, Leaves(steps), v)
  {
    hide Inv, ScriptTurn, StaticTurn, Led, Takes;
    var s := w.sessions[i];
    if r.input {
      InputLeads(w, i, r, now, steps, v);
    } else if r.output {
      TouchFirst(w, i, now, steps, v);
      assert Leaves(steps) == Leaves(steps[1..]);
      if s.client.status == CgiReq {
        ScriptLeads(s, Apply(w, steps[0]), i, r, now, steps[1..], v);
      } else {
        StaticLeads(s, Apply(w, steps[0]), i, r, now, steps[1..], v);
      }
    } else {
      NothingLeads(w, i, r, now, v);
    }
  }

  lemma NothingLeads(w: World, i: nat, r: Revents, now: int, v: World)
    requires i < |w.sessions| && !r.input && !r.output && Takes(w, [], v)
    ensures Led(w.sessions[i], r, now, i, false, v)
  {
  }

  // ---------------------------------------------------------------- and all of this can happen

  /** Steps of a turn that make `q` of a connection. */
  function Way(s: Session, i: nat, r: Revents, now: int, pipe: int, q: Phase): seq<Step> {
    if r.input then [Receive(i, if q == Answering then Static else if q == Asked then Cgi else More, now)]
    else if !r.output then []
    else [Touch(i, now)] +
         match PhaseOf(s)
         case Asked =>
           if q == Running then [StartCgi(i, pipe, now, 0)] else [FailCgi(i, now, 0), NextRequest(i, 0)]
         case Ended(left) =>
           if q == Waiting then [NextRequest(i, 0)]
           else if q.Ended? && 0 < left - q.left then [SendCgi(i, left - q.left, now)]
           else []
         case Answering =>
           if q == Waiting then [Respond(i, WritingDone, false, now), NextRequest(i, 0)]
           else [Respond(i, if q == Answered then WritingDone else Writing, true, now)]
         case Answered => [NextRequest(i, 0)]
         case _ => []
  }

  lemma WayIsLife(s: Session, i: nat, r: Revents, now: int, pipe: int, q: Phase)
    requires ClientOk(s.client, s.mask) && Expected(s.mask, r) && MayBecome(PhaseOf(s), s.client.closing, r, q)
    ensures var steps := Way(s, i, r, now, pipe, q);
            && After(LifeOf(s), steps) != Never && After(LifeOf(s), steps).life.phase == q
            && (forall k :: 0 <= k < |steps| ==> IsAt(steps[k], i))
            && (forall k :: 0 <= k < |steps| && steps[k].StartCgi? ==> k == |steps| - 1 && steps[k].pipe == pipe)
  {
    var l, steps := LifeOf(s), Way(s, i, r, now, pipe, q);
    if |steps| > 0 {
      AfterFirst(l, steps);
      var m, rest := Next(l, steps[0]).life, steps[1..];
      if |rest| > 0 {
        AfterFirst(m, rest);
        if |rest| > 1 {
          AfterFirst(Next(m, rest[0]).life, rest[1..]);
        }
      }
    }
  }

  lemma AfterFirst(l: Life, steps: seq<Step>)
    requires |steps| > 0
    ensures After(l, steps) == match Next(l, steps[0]) case Never => Never case Then(m) => After(m, steps[1..])
    ensures |steps| == 1 ==> After(l, steps) == Next(l, steps[0])
  {
    hide Next;
  }

  lemma WayIsTurn(s: Session, i: nat, r: Revents, now: int, pipe: int, q: Phase)
    requires ClientOk(s.client, s.mask) && Expected(s.mask, r) && MayBecome(PhaseOf(s), s.client.closing, r, q)
    ensures var steps := Way(s, i, r, now, pipe, q); ClientTurn(s.client, i, r, now, steps) && !Leaves(steps)
  {
  }

  lemma TurnCan(w: World, i: nat, r: Revents, now: int, pipe: int, q: Phase)
    requires Inv(w) && i < |w.sessions| && Expected(w.sessions[i].mask, r) && NewFd(w, pipe)
    requires MayBecome(PhaseOf(w.sessions[i]), w.sessions[i].client.closing, r, q)
    ensures var steps := Way(w.sessions[i], i, r, now, pipe, q);
            && ClientTurn(w.sessions[i].client, i, r, now, steps) && Legal(w, steps) && !Leaves(steps)
            && i < |Run(w, steps).sessions| && PhaseOf(Run(w, steps).sessions[i]) == q
  {
    var steps := Way(w.sessions[i], i, r, now, pipe, q);
    WayIsLife(w.sessions[i], i, r, now, pipe, q);
    WayIsTurn(w.sessions[i], i, r, now, pipe, q);
    hide Way, ClientTurn, LifeOf, MayBecome, Inv;
    LifeIsRun(w, i, steps);
  }

  /** What comes before the end of a connection in a turn. */
  function WayOut(s: Session, i: nat, r: Revents, now: int): seq<Step> {
    if r.input then []
    else if PhaseOf(s) == Asked then [Touch(i, now), FailCgi(i, now, 0)]
    else if PhaseOf(s) == Answering then [Touch(i, now), Respond(i, Writing, true, now)]
    else [Touch(i, now)]
  }

  lemma WayOutIsTurn(s: Session, i: nat, r: Revents, now: int)
    requires ClientOk(s.client, s.mask) && Expected(s.mask, r) && MayGo(PhaseOf(s), s.client.closing, r)
    ensures var steps := WayOut(s, i, r, now);
            && ClientTurn(s.client, i, r, now, steps + [Disconnect(i)]) && Leaves(steps + [Disconnect(i)])
            && After(LifeOf(s), steps) != Never
            && forall k :: 0 <= k < |steps| ==> IsAt(steps[k], i) && !steps[k].StartCgi?
  {
    var l, steps := LifeOf(s), WayOut(s, i, r, now);
    if |steps| > 0 {
      assert (steps + [Disconnect(i)])[1..] == steps[1..] + [Disconnect(i)];
      AfterFirst(l, steps);
      if |steps| > 1 {
        assert steps[1..][1..] == [];
        AfterFirst(Next(l, steps[0]).life, steps[1..]);
      }
    }
  }

  lemma TurnCanGo(w: World, i: nat, r: Revents, now: int)
    requires Inv(w) && i < |w.sessions| && Expected(w.sessions[i].mask, r)
    requires MayGo(PhaseOf(w.sessions[i]), w.sessions[i].client.closing, r)
    ensures var steps := WayOut(w.sessions[i], i, r, now) + [Disconnect(i)];
            ClientTurn(w.sessions[i].client, i, r, now, steps) && Legal(w, steps) && Leaves(steps)
  {
    var steps := WayOut(w.sessions[i], i, r, now);
    WayOutIsTurn(w.sessions[i], i, r, now);
    hide WayOut, ClientTurn, LifeOf, MayGo, Inv;
    LifeIsRun(w, i, steps);
    var v := Run(w, steps);
    TakesOne(v, Disconnect(i));
    RunAppend(w, steps, [Disconnect(i)]);
  }
}
