/** The loops that turn the table of listen directives into sockets, in webserv/sources/server/SocketManager.cpp. */
module ListenSockets {
  import opened VirtualHosts
  import opened PollFds
  import Os

  datatype Address = Address(ip: string, port: string)

  /** The descriptors of the entries left to bind, in order. */
  function ListenFds(t: seq<Entry>): seq<int> {
    if |t| == 0 then []
    else ListenFds(t[..|t| - 1]) + if t[|t| - 1].alreadyBound then [] else [t[|t| - 1].fd]
  }

  /** The entries with a descriptor, in order. */
  function Members(t: seq<Entry>, fd: int): (m: seq<nat>)
    ensures forall i :: i in m <==> 0 <= i < |t| && t[i].fd == fd
  {
    if |t| == 0 then []
    else Members(t[..|t| - 1], fd) + if t[|t| - 1].fd == fd then [|t| - 1] else []
  }

  predicate Untouched(t: seq<Entry>) {
    forall i :: 0 <= i < |t| ==> !t[i].alreadyBound && t[i].fd == -1
  }

  class SocketManager {
    var table: seq<Entry>

    constructor ()
      ensures table == []
    {
      table := [];
    }

    /** One entry for every address of every server block. */
    method SetTableOfListen(servers: seq<seq<Address>>)
      requires table == []
      modifies this
      ensures Untouched(table) && Lists(table, servers)
    {
      for b := 0 to |servers|
        invariant Untouched(table)
        invariant forall i :: 0 <= i < |table| ==>
                    table[i].block < b && Address(table[i].ip, table[i].port) in servers[table[i].block]
        invariant forall c, a :: 0 <= c < b && a in servers[c] ==> Listed(table, c, a)
      {
        ghost var before := table;
        for k := 0 to |servers[b]|
          invariant Untouched(table) && before <= table
          invariant forall i :: 0 <= i < |table| ==>
                      table[i].block <= b && Address(table[i].ip, table[i].port) in servers[table[i].block]
          invariant forall c, a :: 0 <= c < b && a in servers[c] ==> Listed(table, c, a)
          invariant forall a :: a in servers[b][..k] ==> Listed(table, b, a)
        {
          ghost var t := table;
          var a := servers[b][k];
          table := table + [Entry(a.ip, a.port, b, false, -1)];
          ListedGrows(t, table[|t|]);
        }
        assert servers[b][..|servers[b]|] == servers[b];
      }
    }

    /** Marks all but the first entry of each class. */
    method HandleVirtualHost()
      requires Untouched(table)
      modifies this
      ensures SameAddresses(old(table), table) && Partitioned(table)
      ensures forall i :: 0 <= i < |table| ==> table[i].fd == -1
    {
      hide Same;
      ghost var t := table;
      for i := 0 to |table|
        invariant Marked(t, table, i, 0)
      {
        for k := i to |table|
          invariant Marked(t, table, i, k)
        {
          MarkedNext(t, table, i, k);
          if i == k || table[i].alreadyBound {
            continue;
          }
          if Same(table[i], table[k]) {
            table := table[k := table[k].(alreadyBound := true)];
          }
        }
      }
      forall i | 0 <= i < |table| ensures Rep(table, i) == Rep(t, i) {
        RepOfAddresses(t, table, i);
      }
    }

    /** A socket for every entry left to bind, also given to the entries equal to it. */
    method InitSockets() returns (ok: bool)
      requires Partitioned(table) && forall i :: 0 <= i < |table| ==> table[i].fd == -1
      modifies this
      ensures SameAddresses(old(table), table)
      ensures ok ==> Partitioned(table) && Shared(table)
    {
      ghost var t := table;
      for counter := 0 to |table|
        invariant Flags(t, table) && Assigned(t, table, counter)
      {
        if !table[counter].alreadyBound {
          ok := OpenSocket(t, counter);
          if !ok {
            return;
          }
        } else {
          AssignedSkips(t, table, counter);
        }
      }
      hide Same, Assigned;
      AssignedIsShared(t, table);
      return true;
    }

    /** The body of that loop for an entry left to bind; any of the system calls may fail. */
    method OpenSocket(ghost t: seq<Entry>, counter: nat) returns (ok: bool)
      requires Partitioned(t) && Flags(t, table) && Assigned(t, table, counter)
      requires counter < |t| && !table[counter].alreadyBound
      modifies this
      ensures Flags(t, table)
      ensures ok ==> Assigned(t, table, counter + 1)
    {
      var found := Os.AnyBool();  // getaddrinfo
      if !found {
        return false;
      }
      ghost var before := table;
      var open := set i | 0 <= i < |table| :: table[i].fd;
      var fd := Os.NewDescriptor(open);  // socket
      if fd == -1 {
        return false;
      }
      assert forall i :: 0 <= i < |table| ==> table[i].fd in open;
      ShareSocket(t, counter, fd);
      SharingDone(t, before, table, counter, fd);
      ok := Os.AnyBool();  // bind
    }

    /** Gives the new socket to its entry and to every entry equal to it. */
    method ShareSocket(ghost t: seq<Entry>, counter: nat, fd: int)
      requires Partitioned(t) && Flags(t, table) && counter < |t| && Rep(t, counter) == counter
      modifies this
      ensures Sharing(t, old(table), table, counter, |t|, fd)
    {
      hide Same;
      ghost var before := table;
      table := table[counter := table[counter].(fd := fd)];
      for s := 0 to |table|
        invariant Sharing(t, before, table, counter, s, fd)
      {
        SharingNext(t, before, table, counter, s, fd);
        if table[s].alreadyBound && Same(table[s], table[counter]) {
          table := table[s := table[s].(fd := fd)];
        }
      }
    }

    /** How many sockets there are. */
    method PortCounter() returns (count: nat)
      ensures count == |ListenFds(table)|
    {
      count := 0;
      for i := 0 to |table|
        invariant count == |ListenFds(table[..i])|
      {
        assert table[..i + 1][..i] == table[..i];
        if !table[i].alreadyBound {
          count := count + 1;
        }
      }
      assert table[..|table|] == table;
    }

    /** Fills the poll array with exactly the listening sockets, waiting for connections. */
    method SetListenEvent(pollfd: array<PollFd>)
      requires pollfd.Length == |ListenFds(table)|
      modifies pollfd
      ensures forall k :: 0 <= k < pollfd.Length ==>
                pollfd[k].fd == ListenFds(table)[k] && pollfd[k].events == IN && pollfd[k].revents == old(pollfd[k].revents)
    {
      var count := 0;
      for i := 0 to |table|
        invariant count == |ListenFds(table[..i])| && ListenFds(table[..i]) <= ListenFds(table)
        invariant forall k :: 0 <= k < count ==>
                    pollfd[k].fd == ListenFds(table[..i])[k] && pollfd[k].events == IN
        invariant forall k :: 0 <= k < pollfd.Length ==> pollfd[k].revents == old(pollfd[k].revents)
      {
        assert table[..i + 1][..i] == table[..i];
        ListenFdsPrefix(table, i + 1);
        if !table[i].alreadyBound {
          pollfd[count] := pollfd[count].(fd := table[i].fd, events := IN);
          count := count + 1;
        }
      }
      assert table[..|table|] == table;
    }

    /** The server blocks behind a socket. */
    method DetectServerBlock(sockFd: int) returns (hint: seq<nat>)
      ensures hint == Members(table, sockFd)
    {
      hint := [];
      for i := 0 to |table|
        invariant hint == Members(table[..i], sockFd)
      {
        assert table[..i + 1][..i] == table[..i];
        if sockFd == table[i].fd {
          hint := hint + [i];
        }
      }
      assert table[..|table|] == table;
    }
  }

  ghost predicate Listed(t: seq<Entry>, b: nat, a: Address) {
    exists i :: 0 <= i < |t| && t[i].block == b && Address(t[i].ip, t[i].port) == a
  }

  /** The table has the addresses of the server blocks, all of them and no others. */
  ghost predicate Lists(t: seq<Entry>, servers: seq<seq<Address>>) {
    && (forall i :: 0 <= i < |t| ==> t[i].block < |servers| && Address(t[i].ip, t[i].port) in servers[t[i].block])
    && (forall b, a :: 0 <= b < |servers| && a in servers[b] ==> Listed(t, b, a))
  }

  /** What is done to flags and descriptors does not change that. */
  lemma StillLists(t: seq<Entry>, u: seq<Entry>, servers: seq<seq<Address>>)
    requires Lists(t, servers) && SameAddresses(t, u)
    ensures Lists(u, servers)
  {
    forall b, a | 0 <= b < |servers| && a in servers[b] ensures Listed(u, b, a) {
      assert Listed(t, b, a);
      var i :| 0 <= i < |t| && t[i].block == b && Address(t[i].ip, t[i].port) == a;
      assert u[i].block == b && Address(u[i].ip, u[i].port) == a;
    }
  }

  lemma ListedGrows(t: seq<Entry>, e: Entry)
    ensures forall b: nat, a :: Listed(t, b, a) ==> Listed(t + [e], b, a)
    ensures Listed(t + [e], e.block, Address(e.ip, e.port))
  {
    var u := t + [e];
    forall b: nat, a | Listed(t, b, a) ensures Listed(u, b, a) {
      var i :| 0 <= i < |t| && t[i].block == b && Address(t[i].ip, t[i].port) == a;
      assert u[i] == t[i];
    }
    assert u[|t|] == e;
  }

  /** Entry `j` is marked once the pass over the entries has reached row `i` and column `k`. */
  predicate MarkedAt(t: seq<Entry>, j: nat, i: nat, k: nat)
    requires j < |t|
  {
    Rep(t, j) != j && (Rep(t, j) < i || (Rep(t, j) == i && j < k))
  }

  predicate Marked(t: seq<Entry>, u: seq<Entry>, i: nat, k: nat) {
    && SameAddresses(t, u)
    && forall j :: 0 <= j < |t| ==> u[j].fd == t[j].fd && (u[j].alreadyBound <==> MarkedAt(t, j, i, k))
  }

  lemma MarkedNext(t: seq<Entry>, u: seq<Entry>, i: nat, k: nat)
    requires i <= k < |t| && Marked(t, u, i, k)
    ensures Marked(t, if i != k && !u[i].alreadyBound && Same(u[i], u[k]) then u[k := u[k].(alreadyBound := true)] else u,
                   i, k + 1)
  {
    RepIsClass(t, i, k);
    assert Same(u[i], u[k]) == Same(t[i], t[k]);
    forall j | 0 <= j < |t| && j != k ensures MarkedAt(t, j, i, k + 1) == MarkedAt(t, j, i, k) {
    }
  }

  /** Addresses and flags are those of `t`. */
  predicate Flags(t: seq<Entry>, u: seq<Entry>) {
    SameAddresses(t, u) && forall i :: 0 <= i < |t| ==> t[i].alreadyBound == u[i].alreadyBound
  }

  /** The classes whose first entry is below `counter` have their socket, and no other entry has one. */
  predicate Assigned(t: seq<Entry>, u: seq<Entry>, counter: nat)
    requires |t| == |u|
  {
    && (forall i :: 0 <= i < |t| ==> u[i].fd >= -1 && (Rep(t, i) < counter <==> u[i].fd >= 0))
    && (forall i, k :: 0 <= i < |t| && 0 <= k < |t| && Rep(t, i) < counter && Rep(t, k) < counter ==>
          (u[i].fd == u[k].fd <==> Rep(t, i) == Rep(t, k)))
  }

  /** The new socket was given to the entries of its class before `s`. */
  predicate Sharing(t: seq<Entry>, before: seq<Entry>, u: seq<Entry>, counter: nat, s: nat, fd: int) {
    && Flags(t, u) && Flags(t, before)
    && forall i :: 0 <= i < |t| ==>
         u[i].fd == if i == counter || (Rep(t, i) == counter && i < s) then fd else before[i].fd
  }

  lemma SharingNext(t: seq<Entry>, before: seq<Entry>, u: seq<Entry>, counter: nat, s: nat, fd: int)
    requires Partitioned(t) && counter < |t| && s < |t| && Rep(t, counter) == counter
    requires Sharing(t, before, u, counter, s, fd)
    ensures Sharing(t, before, if u[s].alreadyBound && Same(u[s], u[counter]) then u[s := u[s].(fd := fd)] else u,
                    counter, s + 1, fd)
  {
    RepIsClass(t, s, counter);
    assert Same(u[s], u[counter]) == Same(t[s], t[counter]);
    assert u[s].alreadyBound <==> Rep(t, s) != s;
    hide Same, Partitioned, Rep, Flags;
    if s != counter && Rep(t, s) == counter {
      SharingTaken(t, before, u, counter, s, fd);
    } else {
      SharingPassed(t, before, u, counter, s, fd);
    }
  }

  lemma SharingTaken(t: seq<Entry>, before: seq<Entry>, u: seq<Entry>, counter: nat, s: nat, fd: int)
    requires counter < |t| && s < |t| && s != counter && Rep(t, s) == counter
    requires Sharing(t, before, u, counter, s, fd)
    ensures Sharing(t, before, u[s := u[s].(fd := fd)], counter, s + 1, fd)
  {
    hide Rep;
  }

  lemma SharingPassed(t: seq<Entry>, before: seq<Entry>, u: seq<Entry>, counter: nat, s: nat, fd: int)
    requires counter < |t| && s < |t| && (s == counter || Rep(t, s) != counter)
    requires Sharing(t, before, u, counter, s, fd)
    ensures Sharing(t, before, u, counter, s + 1, fd)
  {
    hide Rep;
  }

  lemma SharingDone(t: seq<Entry>, before: seq<Entry>, u: seq<Entry>, counter: nat, fd: int)
    requires counter < |t| && Rep(t, counter) == counter && |before| == |t| == |u| && fd >= 0
    requires Assigned(t, before, counter) && Sharing(t, before, u, counter, |t|, fd)
    requires forall i :: 0 <= i < |t| ==> before[i].fd != fd
    ensures Assigned(t, u, counter + 1)
  {
  }

  lemma AssignedSkips(t: seq<Entry>, u: seq<Entry>, counter: nat)
    requires counter < |t| == |u| && Rep(t, counter) != counter && Assigned(t, u, counter)
    ensures Assigned(t, u, counter + 1)
  {
    forall i | 0 <= i < |t| ensures Rep(t, i) != counter {
      RepIsClass(t, i, counter);
    }
  }

  lemma AssignedIsShared(t: seq<Entry>, u: seq<Entry>)
    requires Partitioned(t) && Flags(t, u) && Assigned(t, u, |t|)
    ensures Partitioned(u) && Shared(u)
  {
    forall i | 0 <= i < |t| ensures Rep(u, i) == Rep(t, i) {
      RepOfAddresses(t, u, i);
    }
    forall i, k | 0 <= i < |t| && 0 <= k < |t| ensures Same(u[i], u[k]) <==> Rep(t, i) == Rep(t, k) {
      RepIsClass(u, i, k);
    }
  }

  lemma {:induction false} ListenFdsPrefix(t: seq<Entry>, n: nat)
    requires n <= |t|
    ensures ListenFds(t[..n]) <= ListenFds(t)
    decreases |t|
  {
    if n < |t| {
      assert t[..|t| - 1][..n] == t[..n];
      ListenFdsPrefix(t[..|t| - 1], n);
    } else {
      assert t[..n] == t;
    }
  }

  ghost predicate IsBound(t: seq<Entry>, n: nat, fd: int)
    requires n <= |t|
  {
    exists i :: 0 <= i < n && !t[i].alreadyBound && t[i].fd == fd
  }

  /** The descriptors are distinct and belong to entries left to bind. */
  ghost predicate BoundFds(t: seq<Entry>, n: nat, f: seq<int>)
    requires n <= |t|
  {
    && (forall k :: 0 <= k < |f| ==> IsBound(t, n, f[k]))
    && (forall a, b :: 0 <= a < b < |f| ==> f[a] != f[b])
  }

  lemma BoundFdsNext(t: seq<Entry>, m: nat, f: seq<int>)
    requires Shared(t) && Partitioned(t) && m < |t| && BoundFds(t, m, f)
    ensures BoundFds(t, m + 1, f)
    ensures !t[m].alreadyBound ==> BoundFds(t, m + 1, f + [t[m].fd])
  {
    hide Same;
    forall k | 0 <= k < |f| ensures IsBound(t, m + 1, f[k]) && (!t[m].alreadyBound ==> f[k] != t[m].fd) {
      assert IsBound(t, m, f[k]);
      var i :| 0 <= i < m && !t[i].alreadyBound && t[i].fd == f[k];
      RepIsClass(t, i, m);
    }
    assert !t[m].alreadyBound ==> IsBound(t, m + 1, t[m].fd);
  }

  /** Every listening socket belongs to an entry left to bind, and no two are the same. */
  lemma {:induction false} ListenFdsAreDistinct(t: seq<Entry>, n: nat)
    requires Shared(t) && Partitioned(t) && n <= |t|
    ensures BoundFds(t, n, ListenFds(t[..n]))
  {
    if n > 0 {
      ListenFdsAreDistinct(t, n - 1);
      assert t[..n][..n - 1] == t[..n - 1];
      BoundFdsNext(t, n - 1, ListenFds(t[..n - 1]));
    }
  }

  /** The server blocks of any socket are the whole class of its entries, which is never empty. */
  lemma WholeClass(t: seq<Entry>, i: nat)
    requires Shared(t) && i < |t|
    ensures i in Members(t, t[i].fd)
    ensures forall k: nat :: k in Members(t, t[i].fd) <==> k < |t| && Same(t[k], t[i])
  {
  }
}
