/** The main loop of the server: whatever its passes, it makes a legal run of the protocol. */
module MainLoop {
  import opened Message
  import opened Table
  import opened Slots
  import opened Sync
  import opened Store
  import opened Protocol
  import opened Runs
  import opened ServerProcess

  /** One pass, with what `select`, `accept` and the reads yield in it; or SIGINT; or
      something that a client does between two passes, and whether that closes its socket. */
  datatype Pass =
    | NewClient(fd: int, pid: int)
    | LostClient(fd: int, pid: int)
    | Input(raw: seq<char>, stored: bool)
    | Hear(ready: set<int>, said: map<int, int>)
    | Sigint(m: Msg)
    | ByClient(step: Step, closes: bool)

  /** What the outside world guarantees: descriptors are new, and 1 comes only from a
      client that has left. */
  ghost predicate Possible(s: State, p: Pass) {
    match p
    case NewClient(fd, pid) => Enabled(s, Connect(fd, pid))
    case LostClient(fd, pid) => Enabled(s, Lost(fd, pid))
    case Input(raw, stored) => Enabled(s, Command(raw, stored))
    case Hear(ready, said) =>
      && s.server.status == UP && ready <= said.Keys
      && forall fd | fd in ready && said[fd] == 1 :: fd !in s.clients
    case Sigint(m) => Enabled(s, Interrupt(m))
    case ByClient(step, closes) =>
      && OfClient(step) && Enabled(s, step)
      && (closes <==> step.fd !in Next(s, step).clients)
  }

  predicate OfClient(step: Step) {
    step.Deliver? || step.EndOfFile? || step.Leave?
  }

  function Dones(fds: seq<int>): (steps: seq<Step>)
    ensures |steps| == |fds|
  {
    seq(|fds|, i requires 0 <= i < |fds| => Done(fds[i]))
  }

  /** The steps of the protocol that a pass makes. */
  function StepsOf(s: State, p: Pass): seq<Step> {
    match p
    case NewClient(fd, pid) => [Connect(fd, pid)]
    case LostClient(fd, pid) => [Lost(fd, pid)]
    case Input(raw, stored) => [Command(raw, stored)]
    case Hear(ready, said) => Dones(Gone(s.server.slots, ready, said, |s.server.slots|))
    case Sigint(m) => [Interrupt(m)]
    case ByClient(step, _) => [step]
  }

  /** The state after a pass. */
  function AfterPass(s: State, p: Pass): State {
    match p
    case NewClient(fd, pid) => State(OnConnect(s.server, fd, pid), s.clients[fd := Client(EMPTY, pid, true)])
    case LostClient(fd, pid) => State(OnLost(s.server, fd, pid), s.clients)
    case Hear(ready, said) => State(OnAllDone(s.server, Gone(s.server.slots, ready, said, |s.server.slots|)), s.clients)
    case Sigint(m) => State(OnInterrupt(s.server, s.clients.Keys, m), s.clients)
    case Input(_, _) => if Enabled(s, StepsOf(s, p)[0]) then Next(s, StepsOf(s, p)[0]) else s
    case ByClient(step, _) => if Enabled(s, step) then Next(s, step) else s
  }

  /** Every pass is possible where it comes. */
  ghost predicate Feasible(s: State, ps: seq<Pass>)
    decreases |ps|
  {
    ps != [] ==> Possible(s, ps[0]) && Feasible(AfterPass(s, ps[0]), ps[1..])
  }

  /** The steps of all passes. */
  function Trace(s: State, ps: seq<Pass>): seq<Step>
    decreases |ps|
  {
    if ps == [] then [] else StepsOf(s, ps[0]) + Trace(AfterPass(s, ps[0]), ps[1..])
  }

  // ----- The processes that are signalled -----

  /** A flush signals the processes that are recorded when it happens. */
  function Raised(s: State, step: Step): seq<set<int>> {
    if step.Command? && ParseLine(step.raw, step.stored).0 == Flushed then [Members(s.server.pids)] else []
  }

  ghost function Signals(s: State, steps: seq<Step>): seq<set<int>>
    requires Legal(s, steps)
    decreases |steps|
  {
    if steps == [] then [] else Raised(s, steps[0]) + Signals(Next(s, steps[0]), steps[1..])
  }

  lemma {:induction false} SignalsAppend(s: State, a: seq<Step>, b: seq<Step>)
    requires Legal(s, a) && Legal(After(s, a), b)
    ensures Legal(s, a + b) && Signals(s, a + b) == Signals(s, a) + Signals(After(s, a), b)
    decreases |a|
  {
    LegalAppend(s, a, b);
    if a == [] {
      assert a + b == b;
    } else {
      var s1 := Next(s, a[0]);
      SignalsAppend(s1, a[1..], b);
      FirstSignals(s, a);
      FirstSignals(s, a + b);
      assert (a + b)[0] == a[0] && (a + b)[1..] == a[1..] + b;
      Regroup(Raised(s, a[0]), Signals(s1, a[1..]), Signals(After(s, a), b));
    }
  }

  lemma FirstSignals(s: State, steps: seq<Step>)
    requires Legal(s, steps) && steps != []
    ensures Signals(s, steps) == Raised(s, steps[0]) + Signals(Next(s, steps[0]), steps[1..])
    ensures After(s, steps) == After(Next(s, steps[0]), steps[1..])
  {
  }

  lemma Regroup<T>(a: seq<T>, b: seq<T>, c: seq<T>)
    ensures a + (b + c) == a + b + c
  {
  }

  lemma {:induction false} DonesSilent(s: State, steps: seq<Step>)
    requires Legal(s, steps) && forall step | step in steps :: !step.Command?
    ensures Signals(s, steps) == []
    decreases |steps|
  {
    if steps != [] {
      DonesSilent(Next(s, steps[0]), steps[1..]);
    }
  }

  /** What a pass signals. */
  function SignalledBy(s: State, p: Pass): seq<set<int>> {
    match p
    case Input(raw, stored) => Raised(s, Command(raw, stored))
    case _ => []
  }

  // ----- A pass over the clients is a sequence of Done steps -----

  /** The dismissals are legal and do what the loop over the slots does. */
  ghost predicate Dismisses(s: State, fds: seq<int>) {
    && Legal(s, Dones(fds))
    && var e := After(s, Dones(fds));
       && e == State(OnAllDone(s.server, fds), s.clients)
       && Inv(e) && e.server.status == UP
       && Clients(e.server.slots) == Clients(s.server.slots) - set fd | fd in fds
  }

  lemma {:induction false} DonesLegal(s: State, fds: seq<int>)
    requires Inv(s) && s.server.status == UP
    requires forall i | 0 <= i < |fds| :: fds[i] in Clients(s.server.slots) && fds[i] !in s.clients
    requires forall i, j | 0 <= i < j < |fds| :: fds[i] != fds[j]
    ensures Dismisses(s, fds)
  {
    if fds != [] {
      var init, last := fds[..|fds| - 1], fds[|fds| - 1];
      DonesLegal(s, init);
      OneMore(s, init, last);
      assert fds == init + [last];
    }
  }

  lemma OneMore(s: State, fds: seq<int>, fd: int)
    requires Dismisses(s, fds) && fd in Clients(s.server.slots) && fd !in fds && fd !in s.clients
    ensures Dismisses(s, fds + [fd])
  {
    var e := After(s, Dones(fds));
    ClientIsMember(e.server.slots, fd);
    LegalSnoc(s, Dones(fds), Done(fd));
    assert Dones(fds + [fd]) == Dones(fds) + [Done(fd)];
    StepInv(e, Done(fd));
    OneMoreDone(s.server, fds, fd);
    RemoveClient(e.server.slots, e.server.conn, fd);
  }

  lemma ClientIsMember(slots: seq<int>, fd: int)
    requires fd in Clients(slots)
    ensures fd in Members(slots)
  {
    var j :| 0 <= j < |slots[2..]| && slots[2..][j] == fd && fd != -1;
    assert slots[j + 2] == fd;
  }

  /** Only those that have left are dismissed, so every pass over the clients is legal. */
  lemma HearLegal(s: State, ready: set<int>, said: map<int, int>)
    requires Inv(s) && Possible(s, Hear(ready, said))
    ensures var steps := StepsOf(s, Hear(ready, said));
            && Legal(s, steps)
            && After(s, steps) == State(OnAllDone(s.server, Gone(s.server.slots, ready, said, |s.server.slots|)), s.clients)
  {
    var slots := s.server.slots;
    GoneAre(slots, ready, said, |slots|);
    assert slots[2..|slots|] == slots[2..];
    forall fd | fd in Gone(slots, ready, said, |slots|) ensures fd in Clients(slots) && fd !in s.clients {
    }
    DonesLegal(s, Gone(slots, ready, said, |slots|));
  }

  lemma OneStep(s: State, step: Step)
    requires Enabled(s, step)
    ensures Legal(s, [step]) && After(s, [step]) == Next(s, step)
  {
  }

  /** A possible pass makes legal steps. */
  lemma PassLegal(s: State, p: Pass)
    requires Inv(s) && Possible(s, p)
    ensures Legal(s, StepsOf(s, p)) && After(s, StepsOf(s, p)) == AfterPass(s, p)
    ensures Inv(AfterPass(s, p)) && Signals(s, StepsOf(s, p)) == SignalledBy(s, p)
  {
    match p {
      case Hear(ready, said) =>
        HearLegal(s, ready, said);
        DonesSilent(s, StepsOf(s, p));
      case _ =>
        OneStep(s, StepsOf(s, p)[0]);
        OneSignal(s, StepsOf(s, p)[0]);
    }
    RunInv(s, StepsOf(s, p));
  }

  lemma OneSignal(s: State, step: Step)
    requires Enabled(s, step)
    ensures Legal(s, [step]) && Signals(s, [step]) == Raised(s, step)
  {
    assert [step][1..] == [];
    assert Signals(Next(s, step), []) == [];
  }

  /** Whatever passes are possible, one after the other, they make a legal run. */
  lemma {:induction false} TraceLegal(s: State, ps: seq<Pass>)
    requires Inv(s) && Feasible(s, ps)
    ensures Legal(s, Trace(s, ps))
    decreases |ps|
  {
    if ps != [] {
      PassLegal(s, ps[0]);
      TraceLegal(AfterPass(s, ps[0]), ps[1..]);
      LegalAppend(s, StepsOf(s, ps[0]), Trace(AfterPass(s, ps[0]), ps[1..]));
    }
  }

  // ----- The program -----

  /** The server in memory is in this state of the protocol. */
  ghost predicate Mirrors(server: ServerProcess.Server, sv: Protocol.Server)
    reads server, server.fds, server.pids, server.routingTable, server.macList
    reads server.routingTable.Repr, server.macList.Repr
  {
    server.Valid() && server.Abs() == sv
  }

  /** What the handlers require holds in every state of a run. */
  lemma Established(server: ServerProcess.Server, s: State)
    requires Mirrors(server, s.server) && Inv(s) && s.server.status == UP
    ensures server.Listening() && server.Printable() && server.Contents() == s.server.tables
  {
    assert server.fds[..][0] == 0 && server.fds[..][1] == s.server.conn;
    AllFit(server.routingTable, server.macList);
  }

  method Admission(server: ServerProcess.Server, fd: int, pid: int, present: bool, ghost s: State)
    requires Mirrors(server, s.server) && Inv(s) && s.server.status == UP && Acceptable(s.server, fd)
    modifies server`wire, server`synchronized, server`status, server.fds, server.pids
    ensures Mirrors(server, if present then OnConnect(s.server, fd, pid) else OnLost(s.server, fd, pid))
    ensures server.Lists() == old(server.Lists())
  {
    Established(server, s);
    server.HandleConnect(fd, pid, present);
  }

  method Line(server: ServerProcess.Server, raw: seq<char>, stored: bool, peers: set<int>, ghost s: State)
    returns (signals: seq<set<int>>, ghost added: set<object>)
    requires Mirrors(server, s.server) && s.server.status == UP
    modifies server`wire, server`synchronized, server`status, server.Lists()
    ensures Mirrors(server, OnCommand(s.server, peers, raw, stored))
    ensures signals == SignalledBy(s, Input(raw, stored))
    ensures server.Lists() <= old(server.Lists()) + added && fresh(added)
  {
    var flushed, signalled;
    flushed, signalled, added := server.HandleCommand(raw, stored, peers);
    signals := if flushed then [signalled] else [];
  }

  method Farewells(server: ServerProcess.Server, ready: set<int>, said: map<int, int>, ghost s: State)
    requires Mirrors(server, s.server) && Inv(s) && Possible(s, Hear(ready, said))
    modifies server`wire, server.fds
    ensures Mirrors(server, OnAllDone(s.server, Gone(s.server.slots, ready, said, |s.server.slots|)))
    ensures server.Lists() == old(server.Lists())
  {
    Established(server, s);
    ghost var _ := server.HandleClients(ready, said);
  }

  method Shutdown(server: ServerProcess.Server, m: Msg, peers: set<int>, ghost s: State)
    requires Mirrors(server, s.server) && Inv(s) && Possible(s, Sigint(m))
    modifies server`wire, server`status, server`last, server.fds, server.Lists()
    ensures Mirrors(server, OnInterrupt(s.server, peers, m)) && server.Lists() == old(server.Lists())
  {
    Established(server, s);
    var msg := MessageOf(m);
    Untouched(server);
    server.HandleInterrupt(msg, peers);
  }

  /** What a client does leaves only its channel changed. */
  method Outside(server: ServerProcess.Server, step: Step, ghost s: State)
    requires Mirrors(server, s.server) && Inv(s) && Enabled(s, step) && OfClient(step)
    modifies server`wire
    ensures Mirrors(server, Next(s, step).server) && server.Lists() == old(server.Lists())
  {
    server.wire := Next(s, step).server.wire;
    Kept(server.routingTable);
    Kept(server.macList);
  }

  /** A pass that is not about a line. */
  method PerformOther(server: ServerProcess.Server, peers: set<int>, p: Pass, ghost s: State)
    requires Mirrors(server, s.server) && Inv(s) && peers == s.clients.Keys && Possible(s, p) && !p.Input?
    modifies server`wire, server`synchronized, server`status, server`last, server.fds, server.pids, server.Lists()
    ensures Mirrors(server, AfterPass(s, p).server) && server.Lists() == old(server.Lists())
  {
    match p {
      case NewClient(fd, pid) => Admission(server, fd, pid, true, s);
      case LostClient(fd, pid) => Admission(server, fd, pid, false, s);
      case Hear(ready, said) => Farewells(server, ready, said, s);
      case Sigint(m) => Shutdown(server, m, peers, s);
      case ByClient(step, _) => Outside(server, step, s);
    }
  }

  /** One pass. `peers` are the clients whose sockets are open. */
  method Perform(server: ServerProcess.Server, peers: set<int>, p: Pass, ghost s: State)
    returns (signals: seq<set<int>>, ghost added: set<object>)
    requires Mirrors(server, s.server) && Inv(s) && peers == s.clients.Keys && Possible(s, p)
    modifies server`wire, server`synchronized, server`status, server`last, server.fds, server.pids, server.Lists()
    ensures Mirrors(server, AfterPass(s, p).server) && signals == SignalledBy(s, p)
    ensures server.Lists() <= old(server.Lists()) + added && fresh(added)
  {
    if p.Input? {
      signals, added := Line(server, p.raw, p.stored, peers, s);
    } else {
      signals, added := [], {};
      PerformOther(server, peers, p, s);
    }
  }

  /** The clients whose sockets are open after a pass. */
  function Peers(peers: set<int>, p: Pass): set<int> {
    match p
    case NewClient(fd, _) => peers + {fd}
    case ByClient(step, closes) => if closes && OfClient(step) then peers - {step.fd} else peers
    case _ => peers
  }

  lemma PeersAre(s: State, p: Pass)
    requires Possible(s, p)
    ensures AfterPass(s, p).clients.Keys == Peers(s.clients.Keys, p)
  {
  }

  /** The state after the first `k` passes, and what they have signalled. */
  function StateAt(s0: State, passes: seq<Pass>, k: nat): State
    requires k <= |passes|
  {
    if k == 0 then s0 else AfterPass(StateAt(s0, passes, k - 1), passes[k - 1])
  }

  function SignalsAt(s0: State, passes: seq<Pass>, k: nat): seq<set<int>>
    requires k <= |passes|
  {
    if k == 0 then [] else SignalsAt(s0, passes, k - 1) + SignalledBy(StateAt(s0, passes, k - 1), passes[k - 1])
  }

  /** From here the remaining passes end where all of them end, and signal the rest. */
  ghost predicate Onward(s0: State, passes: seq<Pass>, s: State, rest: seq<Pass>, signals: seq<set<int>>) {
    && Inv(s) && Feasible(s, rest)
    && Legal(s0, Trace(s0, passes)) && Legal(s, Trace(s, rest))
    && After(s, Trace(s, rest)) == After(s0, Trace(s0, passes))
    && signals + Signals(s, Trace(s, rest)) == Signals(s0, Trace(s0, passes))
  }

  lemma OnwardNext(s0: State, passes: seq<Pass>, s: State, rest: seq<Pass>, signals: seq<set<int>>)
    requires Onward(s0, passes, s, rest, signals) && rest != []
    ensures Possible(s, rest[0])
    ensures Onward(s0, passes, AfterPass(s, rest[0]), rest[1..], signals + SignalledBy(s, rest[0]))
  {
    var s', steps := AfterPass(s, rest[0]), StepsOf(s, rest[0]);
    PassLegal(s, rest[0]);
    TraceLegal(s', rest[1..]);
    LegalAppend(s, steps, Trace(s', rest[1..]));
    SignalsAppend(s, steps, Trace(s', rest[1..]));
    Regroup(signals, Signals(s, steps), Signals(s', Trace(s', rest[1..])));
  }

  lemma {:induction false} StandsAt(s0: State, passes: seq<Pass>, k: nat)
    requires Inv(s0) && Feasible(s0, passes) && k <= |passes|
    ensures Onward(s0, passes, StateAt(s0, passes, k), passes[k..], SignalsAt(s0, passes, k))
  {
    if k == 0 {
      TraceLegal(s0, passes);
      assert passes[0..] == passes;
      assert [] + Signals(s0, Trace(s0, passes)) == Signals(s0, Trace(s0, passes));
    } else {
      StandsAt(s0, passes, k - 1);
      var rest := passes[k - 1..];
      assert rest[0] == passes[k - 1] && rest[1..] == passes[k..];
      OnwardNext(s0, passes, StateAt(s0, passes, k - 1), rest, SignalsAt(s0, passes, k - 1));
    }
  }

  /** The pass number `k` of the loop. `memory` is what the lists may consist of. */
  method Turn(server: ServerProcess.Server, passes: seq<Pass>, k: nat, peers: set<int>, signals: seq<set<int>>,
              ghost s0: State, ghost memory: set<object>)
    returns (next: nat, peers': set<int>, signals': seq<set<int>>, ghost memory': set<object>)
    requires Inv(s0) && Feasible(s0, passes) && k < |passes| && server.Lists() <= memory
    requires Mirrors(server, StateAt(s0, passes, k).server) && peers == StateAt(s0, passes, k).clients.Keys
    requires signals == SignalsAt(s0, passes, k)
    modifies server`wire, server`synchronized, server`status, server`last, server.fds, server.pids, server.Lists()
    ensures next == k + 1
    ensures Mirrors(server, StateAt(s0, passes, next).server) && peers' == StateAt(s0, passes, next).clients.Keys
    ensures signals' == SignalsAt(s0, passes, next)
    ensures server.Lists() <= memory' && fresh(memory' - memory)
  {
    ghost var s := StateAt(s0, passes, k);
    StandsAt(s0, passes, k);
    assert passes[k..][0] == passes[k];
    PeersAre(s, passes[k]);
    var raised;
    ghost var added;
    raised, added := Perform(server, peers, passes[k], s);
    next, peers', signals' := k + 1, Peers(peers, passes[k]), signals + raised;
    memory' := memory + added;
  }

  /** The loop. */
  method Serve(server: ServerProcess.Server, passes: seq<Pass>, ghost s0: State) returns (signals: seq<set<int>>)
    requires Mirrors(server, s0.server) && Inv(s0) && s0.clients == map[] && Feasible(s0, passes)
    modifies server`wire, server`synchronized, server`status, server`last, server.fds, server.pids, server.Lists()
    ensures Mirrors(server, StateAt(s0, passes, |passes|).server) && signals == SignalsAt(s0, passes, |passes|)
  {
    ghost var lists := server.Lists();
    ghost var memory := lists;
    var peers := {};
    signals := [];
    var k := 0;
    while k < |passes|
      invariant k <= |passes|
      invariant Mirrors(server, StateAt(s0, passes, k).server) && peers == StateAt(s0, passes, k).clients.Keys
      invariant signals == SignalsAt(s0, passes, k)
      invariant server.Lists() <= memory && fresh(memory - lists)
    {
      k, peers, signals, memory := Turn(server, passes, k, peers, signals, s0, memory);
    }
  }

  /** The program: on every sequence of passes it makes a legal run, is in the server's state
      at its end, and has signalled what the flushes of the run signal. */
  method RunServer(conn: int, passes: seq<Pass>) returns (server: ServerProcess.Server, signals: seq<set<int>>)
    requires conn > 0 && Feasible(Init(conn), passes)
    ensures Legal(Init(conn), Trace(Init(conn), passes))
    ensures Mirrors(server, After(Init(conn), Trace(Init(conn), passes)).server)
    ensures signals == Signals(Init(conn), Trace(Init(conn), passes))
  {
    server := new ServerProcess.Server(conn);
    InitInv(conn);
    signals := Serve(server, passes, Init(conn));
    WholeRun(Init(conn), passes);
  }

  lemma WholeRun(s0: State, passes: seq<Pass>)
    requires Inv(s0) && Feasible(s0, passes)
    ensures Legal(s0, Trace(s0, passes)) && StateAt(s0, passes, |passes|) == After(s0, Trace(s0, passes))
    ensures SignalsAt(s0, passes, |passes|) == Signals(s0, Trace(s0, passes))
  {
    StandsAt(s0, passes, |passes|);
    assert passes[|passes|..] == [];
  }
}
