/** The array of monitored file descriptors. -1 marks a free slot. */
module Slots {

  const MAX_CLIENTS := 32

  /** The first position of `x`, or the length if there is none. */
  function First(s: seq<int>, x: int): (i: nat)
    ensures i <= |s|
    ensures i < |s| ==> s[i] == x
    ensures forall j | 0 <= j < i :: s[j] != x
  {
    if s == [] || s[0] == x then 0 else 1 + First(s[1..], x)
  }

  predicate Full(s: seq<int>) {
    First(s, -1) == |s|
  }

  /** A full array silently stays as it is. */
  function AddFd(s: seq<int>, fd: int): (r: seq<int>)
    ensures |r| == |s|
  {
    var i := First(s, -1);
    if i < |s| then s[i := fd] else s
  }

  function RemoveFd(s: seq<int>, fd: int): (r: seq<int>)
    ensures |r| == |s|
  {
    var i := First(s, fd);
    if i < |s| then s[i := -1] else s
  }

  function Members(s: seq<int>): set<int> {
    set i | 0 <= i < |s| && s[i] != -1 :: s[i]
  }

  /** The descriptors reached by the loops that start at slot 2. */
  function Clients(s: seq<int>): set<int> {
    if |s| < 2 then {} else Members(s[2..])
  }

  ghost predicate Distinct(s: seq<int>) {
    forall i, j | 0 <= i < j < |s| && s[i] != -1 :: s[i] != s[j]
  }

  /** Slots 0 and 1 hold the two permanent descriptors, and nothing is held twice. */
  ghost predicate Anchored(s: seq<int>, conn: int) {
    |s| == MAX_CLIENTS && s[0] == 0 && s[1] == conn && Distinct(s)
  }

  /** The first free slot is filled and the first one with the descriptor is freed, and
      otherwise nothing happens. */
  lemma AddsAtFirst(s: seq<int>, fd: int, i: nat)
    requires i <= |s| && (forall j | 0 <= j < i :: s[j] != -1) && (i < |s| ==> s[i] == -1)
    ensures AddFd(s, fd) == if i < |s| then s[i := fd] else s
  {
    assert First(s, -1) == i;
  }

  lemma RemovesFirst(s: seq<int>, fd: int, i: nat)
    requires i <= |s| && (forall j | 0 <= j < i :: s[j] != fd) && (i < |s| ==> s[i] == fd)
    ensures RemoveFd(s, fd) == if i < |s| then s[i := -1] else s
  {
    assert First(s, fd) == i;
  }

  lemma AddKeeps(s: seq<int>, fd: int)
    requires Distinct(s) && fd != -1 && fd !in Members(s)
    ensures Distinct(AddFd(s, fd))
    ensures Members(AddFd(s, fd)) == Members(s) + if Full(s) then {} else {fd}
  {
    var i, r := First(s, -1), AddFd(s, fd);
    if i < |s| {
      assert r[i] == fd;
      forall x | x in Members(s) ensures x in Members(r) {
        var j :| 0 <= j < |s| && s[j] != -1 && s[j] == x;
        assert r[j] == x;
      }
    }
  }

  lemma RemoveKeeps(s: seq<int>, fd: int)
    requires Distinct(s) && fd != -1
    ensures Distinct(RemoveFd(s, fd))
    ensures Members(RemoveFd(s, fd)) == Members(s) - {fd}
  {
    var i, r := First(s, fd), RemoveFd(s, fd);
    forall x | x in Members(s) && x != fd ensures x in Members(r) {
      var j :| 0 <= j < |s| && s[j] != -1 && s[j] == x;
      assert r[j] == x;
    }
  }

  /** A client gets a slot behind the two permanent ones, unless there is none left. */
  lemma AddClient(s: seq<int>, conn: int, fd: int)
    requires Anchored(s, conn) && conn > 0 && fd > 0 && fd != conn && fd !in Clients(s)
    ensures Anchored(AddFd(s, fd), conn)
    ensures Clients(AddFd(s, fd)) == Clients(s) + if Full(s) then {} else {fd}
  {
    assert fd !in Members(s) by {
      forall j | 2 <= j < |s| && s[j] != -1 ensures s[j] in Clients(s) {
        assert s[2..][j - 2] == s[j];
      }
    }
    AddKeeps(s, fd);
    var i := First(s, -1);
    if i < |s| {
      assert AddFd(s, fd)[2..] == s[2..][i - 2 := fd];
      assert First(s[2..], -1) == i - 2;
    } else {
      assert First(s[2..], -1) == |s[2..]|;
    }
    assert Distinct(s[2..]);
    AddKeeps(s[2..], fd);
  }

  lemma RemoveClient(s: seq<int>, conn: int, fd: int)
    requires Anchored(s, conn) && conn > 0 && fd in Clients(s)
    ensures fd != 0 && fd != conn
    ensures Anchored(RemoveFd(s, fd), conn)
    ensures Clients(RemoveFd(s, fd)) == Clients(s) - {fd}
  {
    var j :| 0 <= j < |s[2..]| && s[2..][j] == fd;
    assert s[j + 2] == fd;
    RemoveKeeps(s, fd);
    var i := First(s, fd);
    assert i >= 2;
    assert RemoveFd(s, fd)[2..] == s[2..][i - 2 := -1];
    assert First(s[2..], fd) == i - 2;
    RemoveKeeps(s[2..], fd);
  }

  // ----- Loops that write to the clients -----

  /** A slot whose client has closed its socket. Nobody catches SIGPIPE, so a write to it
      ends the process. */
  predicate Departed(fd: int, peers: set<int>) {
    fd != -1 && fd !in peers
  }

  /** Where a loop from slot `i` on that writes to every client ends: at the first departed
      one, or behind the last slot. */
  function StopsAt(s: seq<int>, peers: set<int>, i: nat): (k: nat)
    requires i <= |s|
    ensures i <= k <= |s|
    ensures k < |s| ==> Departed(s[k], peers)
    ensures forall j | i <= j < k :: !Departed(s[j], peers)
    decreases |s| - i
  {
    if i == |s| || Departed(s[i], peers) then i else StopsAt(s, peers, i + 1)
  }

  predicate Survives(s: seq<int>, peers: set<int>) {
    |s| < 2 || StopsAt(s, peers, 2) == |s|
  }

  /** The clients that are written to. */
  function Reached(s: seq<int>, peers: set<int>): set<int> {
    if |s| < 2 then {} else Members(s[2..StopsAt(s, peers, 2)])
  }

  /** Such a loop goes through exactly when no registered client has gone. */
  lemma SurvivesIff(s: seq<int>, peers: set<int>)
    ensures Survives(s, peers) <==> Clients(s) <= peers
    ensures Survives(s, peers) ==> Reached(s, peers) == Clients(s)
  {
    if |s| >= 2 {
      var k := StopsAt(s, peers, 2);
      if k < |s| {
        assert s[2..][k - 2] == s[k];
        assert s[k] in Clients(s);
      } else {
        assert s[2..k] == s[2..];
        forall fd | fd in Clients(s) ensures fd in peers {
          var j :| 0 <= j < |s[2..]| && s[2..][j] == fd;
          assert !Departed(s[j + 2], peers);
        }
      }
    }
  }

  /** A client is written to exactly when no slot up to its own holds a departed one. */
  lemma ReachedIff(s: seq<int>, peers: set<int>, i: nat)
    requires Distinct(s) && 2 <= i < |s| && s[i] != -1
    ensures s[i] in Reached(s, peers) <==> forall j | 2 <= j <= i :: !Departed(s[j], peers)
  {
    var k := StopsAt(s, peers, 2);
    if i < k {
      assert s[2..k][i - 2] == s[i];
    }
    if s[i] in Reached(s, peers) {
      var j :| 0 <= j < k - 2 && s[2..k][j] == s[i];
      assert s[j + 2] == s[i];
    }
  }

  /** The same, without a slot number. */
  ghost predicate GetsThrough(s: seq<int>, peers: set<int>, fd: int) {
    exists i | 2 <= i < |s| ::
      s[i] == fd && fd != -1 && forall j | 2 <= j <= i :: s[j] == -1 || s[j] in peers
  }

  lemma ReachedExact(s: seq<int>, peers: set<int>, fd: int)
    requires Distinct(s)
    ensures fd in Reached(s, peers) <==> GetsThrough(s, peers, fd)
  {
    if fd in Reached(s, peers) {
      var k := StopsAt(s, peers, 2);
      var j :| 0 <= j < k - 2 && s[2..k][j] == fd && fd != -1;
      assert s[j + 2] == fd;
      ReachedIff(s, peers, j + 2);
      forall l | 2 <= l <= j + 2 ensures s[l] == -1 || s[l] in peers {
        assert !Departed(s[l], peers);
      }
    }
    if GetsThrough(s, peers, fd) {
      var i :| 2 <= i < |s| && s[i] == fd && fd != -1 && forall j | 2 <= j <= i :: s[j] == -1 || s[j] in peers;
      forall l | 2 <= l <= i ensures !Departed(s[l], peers) {
      }
      ReachedIff(s, peers, i);
    }
  }

  lemma ReachedAreClients(s: seq<int>, peers: set<int>)
    ensures Reached(s, peers) <= Clients(s) && Reached(s, peers) <= peers
  {
    forall fd | fd in Reached(s, peers) ensures fd in Clients(s) && fd in peers {
      var k := StopsAt(s, peers, 2);
      var j :| 0 <= j < k - 2 && s[2..k][j] == fd;
      assert s[2..][j] == fd && !Departed(s[j + 2], peers);
    }
  }

  // ----- The loops over the array -----

  method AddToMonitoredFdSet(fds: array<int>, fd: int)
    modifies fds
    ensures fds[..] == AddFd(old(fds[..]), fd)
  {
    var i := 0;
    while i < fds.Length
      invariant 0 <= i <= fds.Length
      invariant fds[..] == old(fds[..])
      invariant forall j | 0 <= j < i :: fds[j] != -1
    {
      if fds[i] != -1 {
        i := i + 1;
        continue;
      }
      assert First(fds[..], -1) == i;
      fds[i] := fd;
      return;
    }
  }

  method RemoveFromMonitoredFdSet(fds: array<int>, fd: int)
    modifies fds
    ensures fds[..] == RemoveFd(old(fds[..]), fd)
  {
    var i := 0;
    while i < fds.Length
      invariant 0 <= i <= fds.Length
      invariant fds[..] == old(fds[..])
      invariant forall j | 0 <= j < i :: fds[j] != fd
    {
      if fds[i] != fd {
        i := i + 1;
        continue;
      }
      assert First(fds[..], fd) == i;
      fds[i] := -1;
      return;
    }
  }

  method RefreshFdSet(fds: array<int>) returns (watched: set<int>)
    ensures watched == Members(fds[..])
  {
    watched := {};
    for i := 0 to fds.Length
      invariant watched == Members(fds[..i])
    {
      assert fds[..i + 1] == fds[..i] + [fds[i]];
      MembersSnoc(fds[..i], fds[i]);
      if fds[i] != -1 {
        watched := watched + {fds[i]};
      }
    }
    assert fds[..fds.Length] == fds[..];
  }

  lemma MembersSnoc(s: seq<int>, x: int)
    ensures Members(s + [x]) == Members(s) + if x != -1 then {x} else {}
  {
    var r := s + [x];
    assert r[|s|] == x;
    forall y | y in Members(s) ensures y in Members(r) {
      var j :| 0 <= j < |s| && s[j] != -1 && s[j] == y;
      assert r[j] == y;
    }
  }

  /** The first argument of `select` is one more than this: it covers every member. */
  method GetMaxFd(fds: array<int>) returns (max: int)
    requires forall i | 0 <= i < fds.Length :: fds[i] >= -1
    ensures if Members(fds[..]) == {} then max == -1
            else max in Members(fds[..]) && forall fd | fd in Members(fds[..]) :: fd <= max
  {
    max := -1;
    for i := 0 to fds.Length
      invariant -1 <= max
      invariant forall j | 0 <= j < i :: fds[j] <= max
      invariant max != -1 ==> max in fds[..i]
    {
      if fds[i] > max {
        max := fds[i];
      }
    }
    if max != -1 {
      var j :| 0 <= j < fds.Length && fds[j] == max;
      assert fds[..][j] == max;
      assert max in Members(fds[..]);
    }
  }
}
