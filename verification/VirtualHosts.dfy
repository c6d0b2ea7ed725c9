/**
 * The table of listen directives: which entries stand for the same socket, and how sockets are
 * shared (webserv/includes/serverHeader/SocketManager.hpp, webserv/sources/server/SocketManager.cpp).
 */
module VirtualHosts {
  const LOCALHOST := "localhost"
  const DIGIT_HOST := "127.0.0.1"
  const ANY_ADDR := "0.0.0.0"

  /** One `listen` of one server block. `fd` is -1 until a socket is assigned. */
  datatype Entry = Entry(ip: string, port: string, block: nat, alreadyBound: bool, fd: int)

  /** `operator==`, branch by branch. */
  predicate Same(a: Entry, b: Entry) {
    if a.ip == b.ip && a.port == b.port then
      true
    else if a.ip != b.ip && a.port == b.port then
      if (a.ip == LOCALHOST || a.ip == DIGIT_HOST) && (b.ip == LOCALHOST || b.ip == DIGIT_HOST) then
        true
      else
        && (a.ip == ANY_ADDR || b.ip == ANY_ADDR)
        && (a.ip == LOCALHOST || a.ip == DIGIT_HOST || b.ip == LOCALHOST || b.ip == DIGIT_HOST)
    else
      false
  }

  /** The address an interface name stands for: the two loopback names and the wildcard are one. */
  function Canonical(ip: string): string {
    if ip == LOCALHOST || ip == DIGIT_HOST then ANY_ADDR else ip
  }

  /** Two entries are equal exactly when their ports and canonical addresses are. */
  lemma SameIsCanonical(a: Entry, b: Entry)
    ensures Same(a, b) <==> Canonical(a.ip) == Canonical(b.ip) && a.port == b.port
  {
  }

  /** On one port, equal names are equal, and so are the three that mean this machine. */
  lemma SameMeans(a: Entry, b: Entry)
    ensures Same(a, b) <==>
              a.port == b.port
              && (a.ip == b.ip
                  || (a.ip in {"localhost", "127.0.0.1", "0.0.0.0"} && b.ip in {"localhost", "127.0.0.1", "0.0.0.0"}))
  {
  }

  /** `operator==` is an equivalence relation. */
  lemma SameIsEquivalence(a: Entry, b: Entry, c: Entry)
    ensures Same(a, a)
    ensures Same(a, b) ==> Same(b, a)
    ensures Same(a, b) && Same(b, c) ==> Same(a, c)
  {
    SameIsCanonical(a, a);
    SameIsCanonical(a, b);
    SameIsCanonical(b, a);
    SameIsCanonical(b, c);
    SameIsCanonical(a, c);
  }

  // ---------------------------------------------------------------- classes of the table

  function FirstSame(t: seq<Entry>, i: nat, j: nat): (r: nat)
    requires j <= i < |t|
    requires forall k :: 0 <= k < j ==> !Same(t[k], t[i])
    ensures j <= r <= i && Same(t[r], t[i])
    ensures forall k :: 0 <= k < r ==> !Same(t[k], t[i])
    decreases i - j
  {
    if Same(t[j], t[i]) then j
    else
      assert Same(t[i], t[i]);
      FirstSame(t, i, j + 1)
  }

  /** The first entry equal to entry `i`: the one that gets the socket of its class. */
  function Rep(t: seq<Entry>, i: nat): (r: nat)
    requires i < |t|
    ensures r <= i && Same(t[r], t[i])
    ensures forall k :: 0 <= k < r ==> !Same(t[k], t[i])
  {
    FirstSame(t, i, 0)
  }

  lemma RepIsClass(t: seq<Entry>, i: nat, k: nat)
    requires i < |t| && k < |t|
    ensures Same(t[i], t[k]) <==> Rep(t, i) == Rep(t, k)
    ensures Rep(t, Rep(t, i)) == Rep(t, i)
  {
    var a, b := Rep(t, i), Rep(t, k);
    SameIsEquivalence(t[a], t[i], t[k]);
    SameIsEquivalence(t[b], t[k], t[i]);
    SameIsEquivalence(t[i], t[k], t[b]);
    SameIsEquivalence(t[k], t[b], t[i]);
    SameIsEquivalence(t[i], t[a], t[k]);
    SameIsEquivalence(t[Rep(t, a)], t[a], t[i]);
  }

  /** Two tables list the same addresses; flags and descriptors may differ. */
  predicate SameAddresses(t: seq<Entry>, u: seq<Entry>) {
    |t| == |u| && forall i :: 0 <= i < |t| ==> t[i].ip == u[i].ip && t[i].port == u[i].port && t[i].block == u[i].block
  }

  lemma RepOfAddresses(t: seq<Entry>, u: seq<Entry>, i: nat)
    requires SameAddresses(t, u) && i < |t|
    ensures Rep(t, i) == Rep(u, i)
  {
    var a, b := Rep(t, i), Rep(u, i);
    assert Same(t[b], t[i]) == Same(u[b], u[i]) && Same(u[a], u[i]) == Same(t[a], t[i]);
  }

  /** Exactly the first entry of each class is left to bind. */
  predicate Partitioned(t: seq<Entry>) {
    forall i :: 0 <= i < |t| ==> (t[i].alreadyBound <==> Rep(t, i) != i)
  }

  /** Two entries share a descriptor exactly when they are equal, and every descriptor is a real one. */
  predicate Shared(t: seq<Entry>) {
    && (forall i :: 0 <= i < |t| ==> t[i].fd >= 0)
    && (forall i, k :: 0 <= i < |t| && 0 <= k < |t| ==> (t[i].fd == t[k].fd <==> Same(t[i], t[k])))
  }
}
