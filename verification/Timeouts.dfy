/** When clients time out, and how long the server may sleep (webserv/sources/server/server.cpp). */
module Timeouts {
  import opened PollLayout

  predicate Expired(c: Client, now: int) {
    now - c.startTime >= c.timeOut
  }

  /** The clients that have not timed out, in order. */
  function Alive(cs: seq<Client>, now: int): seq<Client> {
    if |cs| == 0 then []
    else (if Expired(cs[0], now) then [] else [cs[0]]) + Alive(cs[1..], now)
  }

  /** How long the client has left. */
  function Left(c: Client, now: int): int {
    c.timeOut - (now - c.startTime)
  }

  /** 0 exactly when some client has timed out, and otherwise the least time any client has left. */
  predicate IsNextTimeout(cs: seq<Client>, now: int, r: int) {
    && (r == 0 <==> exists i :: 0 <= i < |cs| && Expired(cs[i], now))
    && (r != 0 ==>
          && r > 0
          && (exists i :: 0 <= i < |cs| && Left(cs[i], now) == r)
          && (forall i :: 0 <= i < |cs| ==> r <= Left(cs[i], now)))
  }

  /** With no activity, a sweep before that time removes nobody, and a sweep at it removes somebody. */
  lemma SleepIsExact(cs: seq<Client>, now: int, r: int, t: int)
    requires IsNextTimeout(cs, now, r) && 0 <= t <= r
    ensures t < r ==> Alive(cs, now + t) == cs
    ensures |cs| > 0 && t == r ==> |Alive(cs, now + t)| < |cs|
  {
    if t < r {
      NobodyExpired(cs, now + t);
    } else if |cs| > 0 {
      var i :| 0 <= i < |cs| && Expired(cs[i], now + t);
      SomebodyExpired(cs, now + t, i);
    }
  }

  lemma {:induction false} NobodyExpired(cs: seq<Client>, now: int)
    requires forall i :: 0 <= i < |cs| ==> !Expired(cs[i], now)
    ensures Alive(cs, now) == cs
    decreases |cs|
  {
    if |cs| > 0 {
      NobodyExpired(cs[1..], now);
      assert cs == [cs[0]] + cs[1..];
    }
  }

  lemma {:induction false} SomebodyExpired(cs: seq<Client>, now: int, i: nat)
    requires i < |cs| && Expired(cs[i], now)
    ensures |Alive(cs, now)| < |cs|
    decreases |cs|
  {
    AliveShrinks(cs[1..], now);
    if i > 0 {
      SomebodyExpired(cs[1..], now, i - 1);
    }
  }

  lemma {:induction false} AliveShrinks(cs: seq<Client>, now: int)
    ensures |Alive(cs, now)| <= |cs|
    decreases |cs|
  {
    if |cs| > 0 {
      AliveShrinks(cs[1..], now);
    }
  }

  /** A sweep keeps exactly the clients that have not timed out. */
  lemma {:induction false} AliveMembers(cs: seq<Client>, now: int, c: Client)
    ensures c in Alive(cs, now) <==> c in cs && !Expired(c, now)
    decreases |cs|
  {
    if |cs| > 0 {
      AliveMembers(cs[1..], now, c);
      assert cs == [cs[0]] + cs[1..];
    }
  }
}
