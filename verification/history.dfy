/** The runs of the program and those of the protocol: what the signals do, whom they go
    to in terms of what has happened before, and that every run has its passes. */
module History {
  import opened Message
  import opened Table
  import opened Slots
  import opened Snapshot
  import opened Protocol
  import opened Runs
  import opened Steps
  import opened ServerProcess
  import opened MainLoop

  // ----- What a signal does -----

  /** A command empties the clients whose process it signals, and no others. */
  lemma SignalEmpties(s: State, raw: seq<char>, stored: bool, fd: int)
    requires s.server.status == UP && fd in s.clients
    ensures var step := Command(raw, stored);
            && Legal(s, [step])
            && var sets, s' := Signals(s, [step]), Next(s, step);
            && |sets| <= 1 && fd in s'.clients
            && s'.clients[fd].tables ==
                 if exists k :: 0 <= k < |sets| && s.clients[fd].pid in sets[k] then EMPTY else s.clients[fd].tables
  {
    OneSignal(s, Command(raw, stored));
    var sets := Signals(s, [Command(raw, stored)]);
    assert sets == Raised(s, Command(raw, stored));
    assert sets != [] ==> (s.clients[fd].pid in sets[0] <==> s.clients[fd].pid in Members(s.server.pids));
  }

  // ----- Whom a signal goes to -----

  /** The signals of a run: each flush goes to the first 32 processes that ever announced
      themselves, whatever has become of them. */
  function Recalled(past: seq<int>, steps: seq<Step>): seq<set<int>>
    decreases |steps|
  {
    if steps == [] then []
    else
      match steps[0]
      case Connect(_, pid) => Recalled(past + [pid], steps[1..])
      case Lost(_, pid) => Recalled(past + [pid], steps[1..])
      case Command(raw, _) =>
        (if Verb(WordsOf(Protocol.Line(raw)), 'F') then [set k | 0 <= k < |past| && k < 32 :: past[k]] else [])
        + Recalled(past, steps[1..])
      case _ => Recalled(past, steps[1..])
  }

  /** The array holds the first 32 of them, in their order. */
  ghost predicate Records(pids: seq<int>, past: seq<int>) {
    && |pids| == 32
    && (forall k | 0 <= k < |past| :: past[k] > 0)
    && forall k | 0 <= k < 32 :: pids[k] == if k < |past| then past[k] else -1
  }

  lemma RecordsMore(pids: seq<int>, past: seq<int>, pid: int)
    requires Records(pids, past) && pid > 0
    ensures Records(AddFd(pids, pid), past + [pid])
  {
    AddsAtFirst(pids, pid, if |past| < 32 then |past| else 32);
  }

  lemma RecordedSet(pids: seq<int>, past: seq<int>)
    requires Records(pids, past)
    ensures Members(pids) == set k | 0 <= k < |past| && k < 32 :: past[k]
  {
    var called := set k | 0 <= k < |past| && k < 32 :: past[k];
    forall x | x in Members(pids) ensures x in called {
      var k :| 0 <= k < |pids| && pids[k] != -1 && pids[k] == x;
      assert past[k] == x;
    }
    forall x | x in called ensures x in Members(pids) {
      var k :| 0 <= k < |past| && k < 32 && past[k] == x;
      assert pids[k] == x;
    }
  }

  lemma PidsStay(s: State, step: Step)
    requires Enabled(s, step) && !step.Connect? && !step.Lost?
    ensures Next(s, step).server.pids == s.server.pids
  {
  }

  lemma {:induction false} SignalsRecall(s: State, steps: seq<Step>, past: seq<int>)
    requires Legal(s, steps) && Records(s.server.pids, past)
    ensures Signals(s, steps) == Recalled(past, steps)
    decreases |steps|
  {
    if steps != [] {
      match steps[0]
      case Connect(_, pid) =>
        RecordsMore(s.server.pids, past, pid);
        SignalsRecall(Next(s, steps[0]), steps[1..], past + [pid]);
      case Lost(_, pid) =>
        RecordsMore(s.server.pids, past, pid);
        SignalsRecall(Next(s, steps[0]), steps[1..], past + [pid]);
      case Command(raw, stored) =>
        FlushedVerb(WordsOf(Protocol.Line(raw)), stored);
        RecordedSet(s.server.pids, past);
        PidsStay(s, steps[0]);
        SignalsRecall(Next(s, steps[0]), steps[1..], past);
      case _ =>
        PidsStay(s, steps[0]);
        SignalsRecall(Next(s, steps[0]), steps[1..], past);
    }
  }

  /** What the program signals on a run is fixed by the steps of the run alone. */
  lemma RunSignals(conn: int, steps: seq<Step>)
    requires Legal(Init(conn), steps)
    ensures Signals(Init(conn), steps) == Recalled([], steps)
  {
    assert Records(Init(conn).server.pids, []);
    SignalsRecall(Init(conn), steps, []);
  }

  // ----- Every run has its passes -----

  /** The pass that makes a step. */
  function PassFor(s: State, step: Step): Pass
    requires Enabled(s, step)
  {
    match step
    case Connect(fd, pid) => NewClient(fd, pid)
    case Lost(fd, pid) => LostClient(fd, pid)
    case Command(raw, stored) => Input(raw, stored)
    case Done(fd) => Hear({fd}, map[fd := 1])
    case Interrupt(m) => Sigint(m)
    case Deliver(fd) => ByClient(step, fd !in Next(s, step).clients)
    case EndOfFile(fd) => ByClient(step, false)
    case Leave(fd) => ByClient(step, true)
  }

  lemma OneGone(s: State, fd: int)
    requires Inv(s) && Enabled(s, Done(fd))
    ensures StepsOf(s, Hear({fd}, map[fd := 1])) == [Done(fd)]
  {
    DoneIsClient(s, fd);
    GoneIs(s.server.slots, fd);
    assert Dones([fd]) == [Done(fd)];
  }

  lemma GoneIs(slots: seq<int>, fd: int)
    requires |slots| >= 2 && Distinct(slots) && fd in Clients(slots)
    ensures Gone(slots, {fd}, map[fd := 1], |slots|) == [fd]
  {
    GoneAre(slots, {fd}, map[fd := 1], |slots|);
    assert slots[2..|slots|] == slots[2..];
    OnlyThat(Gone(slots, {fd}, map[fd := 1], |slots|), fd);
  }

  lemma OnlyThat(gone: seq<int>, fd: int)
    requires fd in gone && (forall g | g in gone :: g == fd)
    requires forall j, k | 0 <= j < k < |gone| :: gone[j] != gone[k]
    ensures gone == [fd]
  {
    var k := |gone| - 1;
    assert gone[0] in gone && gone[k] in gone;
  }

  lemma PassMakes(s: State, step: Step)
    requires Inv(s) && Enabled(s, step)
    ensures var p := PassFor(s, step);
            Possible(s, p) && StepsOf(s, p) == [step] && AfterPass(s, p) == Next(s, step)
  {
    match step {
      case Done(fd) => OneGone(s, fd);
      case _ =>
    }
    PassLegal(s, PassFor(s, step));
    OneStep(s, step);
  }

  /** The passes that make a run. */
  ghost function PassesFor(s: State, steps: seq<Step>): seq<Pass>
    requires Legal(s, steps)
    decreases |steps|
  {
    if steps == [] then [] else [PassFor(s, steps[0])] + PassesFor(Next(s, steps[0]), steps[1..])
  }

  lemma {:induction false} PassesMake(s: State, steps: seq<Step>)
    requires Inv(s) && Legal(s, steps)
    ensures Feasible(s, PassesFor(s, steps)) && Trace(s, PassesFor(s, steps)) == steps
    decreases |steps|
  {
    if steps != [] {
      PassMakes(s, steps[0]);
      StepInv(s, steps[0]);
      PassesMake(Next(s, steps[0]), steps[1..]);
      assert PassesFor(s, steps)[1..] == PassesFor(Next(s, steps[0]), steps[1..]);
    }
  }

  /** The program can make every run of the protocol, so what is proved of all runs is
      proved of nothing but what it can do. */
  lemma RunHasPasses(conn: int, steps: seq<Step>)
    requires conn > 0 && Legal(Init(conn), steps)
    ensures exists ps :: Feasible(Init(conn), ps) && Trace(Init(conn), ps) == steps
  {
    InitInv(conn);
    PassesMake(Init(conn), steps);
  }
}
