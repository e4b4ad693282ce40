/** Runs in which the conditions are not met, and what then happens. */
module Failures {
  import opened CString
  import opened Address
  import opened Message
  import opened Table
  import opened Slots
  import opened Snapshot
  import opened Protocol
  import opened Replication
  import opened Runs
  import opened Flags
  import opened Lines

  /** A line that is accepted, understood and passed on to all registered clients. */
  lemma PassedOn(s: State, raw: seq<char>, m: Msg)
    requires Inv(s) && Good(s) && s.server.status == UP && NoneGone(s)
    requires ParseLine(raw, true) == (Accepted, m) && Defined(s.server.tables, m)
    ensures var s', t := Next(s, Command(raw, true)), Apply(s.server.tables, Effect(m));
            && s'.clients == s.clients
            && s'.server == s.server.(tables := t,
                                      wire := Broadcast(s.server.wire, Clients(s.server.slots), Update(m, t)))
            && Inv(s') && Good(s') && InService(s')
  {
    SurvivesIff(s.server.slots, s.clients.Keys);
    StepInv(s, Command(raw, true));
    StepReplicates(s, Command(raw, true));
    StepTruthful(s, Command(raw, true));
  }

  // ----- A flush -----

  function Last(w: seq<Sent>): Msg
    requires w != []
  {
    w[|w| - 1].packet.msg
  }

  /** A client that a signal will reach. */
  ghost predicate Exposed(s: State, fd: int) {
    && fd in s.clients && fd in Clients(s.server.slots) && Signalled(s, fd)
    && Reading(s, fd) && NoneGone(s)
  }

  /** A flush that overtakes an addition breaks the replica, in whatever state. */
  lemma AdditionOvertaken(s: State, fd: int, mac: CStr)
    requires Inv(s) && InService(s) && s.server.status == UP && Exposed(s, fd)
    requires s.server.wire[fd] != [] && Effect(Last(s.server.wire[fd])) == AddMac(mac)
    ensures !Replicated(Next(s, Command("F\n", true)))
  {
    FlushCommand();
    var w := s.server.wire[fd];
    assert Msgs(w)[|w| - 1] == Last(w);
    assert !MacsCancelled(Msgs(w));
    assert !FlushSoundFor(s, fd);
    StepReplicates(s, Command("F\n", true));
    FlushedNext(s, "F\n", true);
    FlushKeepsUp(s, BLANK.(op := NONE));
  }

  lemma FlushKeepsUp(s: State, m: Msg)
    requires s.server.status == UP && NoneGone(s) && m.op == NONE
    ensures AfterFlush(s, m).server.status == UP
  {
    assert Emptied(s).clients.Keys == s.clients.Keys;
    SurvivesIff(s.server.slots, s.clients.Keys);
  }

  /** If it overtakes the addition of a route, the client is told, besides, that its
      routing table is up to date. */
  lemma RouteOvertaken(s: State, fd: int, r: Route)
    requires Inv(s) && Good(s) && s.server.status == UP && Exposed(s, fd)
    requires s.server.wire[fd] != [] && Effect(Last(s.server.wire[fd])) == AddRoute(r)
    ensures FlagComesOutFalse(s, fd)
  {
    var w := s.server.wire[fd];
    assert Msgs(w)[|w| - 1] == Last(w);
    assert !RoutesCancelled(Msgs(w));
    SurvivesIff(s.server.slots, s.clients.Keys);
    assert !FlagsHold(s, fd);
    FlagTurnsFalse(s, fd);
  }

  /** After a flush, the client reads a false flag, unless what is under way kills it. */
  ghost predicate FlagComesOutFalse(s: State, fd: int)
    requires s.server.status == UP && fd in s.server.wire
  {
    var s' := Next(s, Command("F\n", true));
    && (exists n: nat :: Surfaces(s', fd, n) || Dies(s', fd, n))
    && (AllReady(Msgs(s.server.wire[fd])) ==> exists n: nat :: Surfaces(s', fd, n))
  }

  /** A flush after a SHOW has nothing to leave behind; but the flag of the SHOW, still
      under way, is read by a client that is empty by then. */
  lemma ShowOvertaken(s: State, fd: int)
    requires Inv(s) && Good(s) && s.server.status == UP && Exposed(s, fd)
    requires s.server.wire[fd] == [] && s.server.tables.rt != []
    ensures var s1 := Next(s, Command("S\n", true));
            && s1.server.status == UP && fd in s1.server.wire
            && FlushSoundFor(s1, fd) && AllReady(Msgs(s1.server.wire[fd])) && FlagComesOutFalse(s1, fd)
  {
    ShowCommand();
    FlagOvertaken(s, fd, "S\n", BLANK.(op := NONE));
  }

  lemma FlagOvertaken(s: State, fd: int, line: seq<char>, m: Msg)
    requires Inv(s) && Good(s) && s.server.status == UP && Exposed(s, fd)
    requires s.server.wire[fd] == [] && s.server.tables.rt != []
    requires ParseLine(line, true) == (Accepted, m) && m.op == NONE && m.l == L3
    ensures var s1 := Next(s, Command(line, true));
            && s1.server.status == UP && fd in s1.server.wire
            && FlushSoundFor(s1, fd) && AllReady(Msgs(s1.server.wire[fd])) && FlagComesOutFalse(s1, fd)
  {
    var s1 := Next(s, Command(line, true));
    PassedOn(s, line, m);
    assert s1.server.wire[fd] == [] + [Update(m, s.server.tables)];
    LoneOvertaken(s1, fd, m, s.server.tables);
  }

  lemma LoneOvertaken(s: State, fd: int, m: Msg, t: Tables)
    requires Inv(s) && Good(s) && s.server.status == UP && Exposed(s, fd)
    requires s.server.wire[fd] == [Update(m, t)] && m.op == NONE && m.l == L3 && t.rt != []
    ensures FlushSoundFor(s, fd) && AllReady(Msgs(s.server.wire[fd])) && FlagComesOutFalse(s, fd)
  {
    LoneFlag(m, t);
    assert !FlagsHold(s, fd);
    FlagTurnsFalse(s, fd);
  }

  lemma LoneFlag(m: Msg, t: Tables)
    requires m.op == NONE && m.l == L3
    ensures var w := [Update(m, t)];
            && Cancelled(Msgs(w)) && NamesUnread(Msgs(w)) && AllReady(Msgs(w))
            && (Truthful(EMPTY, w) <==> t.rt == [])
  {
    assert Effect(m) == Nothing;
    assert Msgs([Update(m, t)]) == [m];
    TruthfulOne(EMPTY, Update(m, t));
  }

  lemma FlagTurnsFalse(s: State, fd: int)
    requires Inv(s) && Good(s) && s.server.status == UP && NoneGone(s) && Reading(s, fd) && !FlagsHold(s, fd)
    ensures FlagComesOutFalse(s, fd)
  {
    var m := BLANK.(op := NONE);
    var s' := AfterFlush(s, m);
    FlushCommand();
    FlushedNext(s, "F\n", true);
    FlushTruthfulOne(s, m, fd);
    StepInv(s, Command("F\n", true));
    FlushKeepsUp(s, m);
    FalseFlagShows(s', fd);
    if AllReady(Msgs(s.server.wire[fd])) {
      FlushReady(s, m, fd);
      ReadySmooth(s'.clients[fd].tables, Msgs(s'.server.wire[fd]));
    }
  }

  lemma FlushReady(s: State, m: Msg, fd: int)
    requires m.op == NONE && fd in s.server.wire && AllReady(Msgs(s.server.wire[fd]))
    ensures AllReady(Msgs(AfterFlush(s, m).server.wire[fd]))
  {
    MsgsAppend(s.server.wire[fd], [Update(m, EMPTY)]);
  }

  // ----- A long name -----

  /** A line that repeats the key of a route with an interface name that fills its field is
      passed on unread. A client that is emptied before it reads it takes it for a new
      route, looks at the name, and is gone. */
  lemma NameOvertaken(s: State, fd: int, line: seq<char>, r: Route)
    requires Inv(s) && Good(s) && s.server.status == UP && Exposed(s, fd) && s.server.wire[fd] == []
    requires AddsLong(line, r) && Lookup(s.server.tables.rt, r.dest, r.mask).Via?
    ensures var s1 := Next(s, Command(line, true));
            && s1.server.status == UP && s1.server.tables == s.server.tables
            && var s2 := Next(s1, Command("F\n", true)); s2.server.status == UP && Dies(s2, fd, 0)
  {
    var m := ParseLine(line, true).1;
    var s1 := Next(s, Command(line, true));
    PassedOn(s, line, m);
    assert s1.server.wire[fd] == [] + [Update(m, s.server.tables)];
    FlushKills(s1, fd);
  }

  lemma FlushKills(s: State, fd: int)
    requires s.server.status == UP && NoneGone(s) && Reading(s, fd) && Signalled(s, fd)
    requires s.server.wire[fd] != [] && !Defined(EMPTY, s.server.wire[fd][0].packet.msg)
    ensures var s' := Next(s, Command("F\n", true)); s'.server.status == UP && Dies(s', fd, 0)
  {
    FlushCommand();
    FlushedNext(s, "F\n", true);
    FlushKeepsUp(s, BLANK.(op := NONE));
    assert Emptied(s).clients.Keys == s.clients.Keys;
    assert Deliveries(fd, 0) == [];
  }

  /** The server itself looks at such a name if the route is new. */
  lemma LongNameFails(s: State, line: seq<char>, r: Route)
    requires s.server.status == UP && AddsLong(line, r)
    requires Lookup(s.server.tables.rt, r.dest, r.mask).Absent?
    ensures var s' := Next(s, Command(line, true));
            s'.server.status == CRASHED && s'.server.wire == s.server.wire
  {
  }

  // ----- A replica that has gone wrong -----

  /** A line that changes nothing and is passed on. */
  lemma NothingNew(s: State, raw: seq<char>, m: Msg)
    requires Inv(s) && s.server.status == UP && NoneGone(s)
    requires ParseLine(raw, true) == (Accepted, m) && Effect(m) == Nothing && Ready(m)
    ensures var s' := Next(s, Command(raw, true));
            && s'.clients == s.clients && Inv(s') && NoneGone(s')
            && s'.server == s.server.(wire := Broadcast(s.server.wire, Clients(s.server.slots),
                                                        Update(m, s.server.tables)))
  {
    SurvivesIff(s.server.slots, s.clients.Keys);
    StepInv(s, Command(raw, true));
  }

  /** The flags are where a wrong replica comes out: SHOW and the update of a MAC address
      change nothing, but a registered client that does not follow the server reads a false
      flag behind them, or is killed before. */
  lemma DifferenceShows(s: State, fd: int, mac: CStr)
    requires Inv(s) && s.server.status == UP && NoneGone(s) && IsMac(mac)
    requires Reading(s, fd) && fd in Clients(s.server.slots) && !InStep(s, fd)
    ensures var s1 := Next(s, Command("S\n", true));
            && s1.server.status == UP
            && var s2 := Next(s1, Command("U " + mac + "\n", true));
               && s2.server.tables == s.server.tables
               && exists n: nat :: Surfaces(s2, fd, n) || Dies(s2, fd, n)
  {
    ShowCommand();
    UpdateMacCommand(mac);
    TwoLinesShow(s, fd, "S\n", BLANK.(op := NONE), "U " + mac + "\n", ParseLine("U " + mac + "\n", true).1);
  }

  lemma TwoLinesShow(s: State, fd: int, a: seq<char>, m1: Msg, b: seq<char>, m2: Msg)
    requires Inv(s) && s.server.status == UP && NoneGone(s)
    requires Reading(s, fd) && fd in Clients(s.server.slots) && !InStep(s, fd)
    requires ParseLine(a, true) == (Accepted, m1) && Effect(m1) == Nothing && Ready(m1) && m1.l == L3
    requires ParseLine(b, true) == (Accepted, m2) && Effect(m2) == Nothing && Ready(m2) && m2.l == L2
    ensures var s1 := Next(s, Command(a, true));
            && s1.server.status == UP
            && var s2 := Next(s1, Command(b, true));
               && s2.server.tables == s.server.tables
               && exists n: nat :: Surfaces(s2, fd, n) || Dies(s2, fd, n)
  {
    var s1 := Next(s, Command(a, true));
    NothingNew(s, a, m1);
    NothingNew(s1, b, m2);
    TwoFlags(s.clients[fd].tables, s.server.wire[fd], m1, m2, s.server.tables);
    FalseFlagShows(Next(s1, Command(b, true)), fd);
  }

  lemma TwoFlags(t: Tables, w: seq<Sent>, m1: Msg, m2: Msg, now: Tables)
    requires Effect(m1) == Nothing && Effect(m2) == Nothing && m1.l == L3 && m2.l == L2 && Ready(m1) && Ready(m2)
    ensures var w2 := w + [Update(m1, now)] + [Update(m2, now)];
            Truthful(t, w2) && Smooth(t, Msgs(w2)) ==> Smooth(t, Msgs(w)) && Replay(t, Msgs(w)) == now
  {
    var p1, p2 := Update(m1, now), Update(m2, now);
    TruthfulAppend(t, w, [p1]);
    TruthfulOne(Replay(t, Msgs(w)), p1);
    Appended(t, w, p1);
    TruthfulAppend(t, w + [p1], [p2]);
    TruthfulOne(Replay(t, Msgs(w + [p1])), p2);
    Appended(t, w + [p1], p2);
  }

  // ----- Runs with one client -----

  /** The first client goes to slot 2, and its process id to the first place. */
  lemma FirstClient()
    ensures var s := Next(Init(3), Connect(5, 100));
            && s.server.slots == FreeSlots()[0 := 0][1 := 3][2 := 5] && Exposed(s, 5)
            && s.clients == map[5 := Client(EMPTY, 100, true)] && s.server.tables == EMPTY
            && s.server.wire.Keys == {5} && |s.server.wire[5]| == 2 && s.server.conn == 3
            && Inv(s) && Good(s) && InService(s)
  {
    FirstSlot();
    InitInv(3);
    StepInv(Init(3), Connect(5, 100));
    StepReplicates(Init(3), Connect(5, 100));
    StepTruthful(Init(3), Connect(5, 100));
  }

  lemma FirstSlot()
    ensures var sv := OnConnect(Init(3).server, 5, 100);
            && sv.slots == FreeSlots()[0 := 0][1 := 3][2 := 5] && Clients(sv.slots) == {5} && 100 in Members(sv.pids)
  {
    var slots, pids := Init(3).server.slots, FreeSlots();
    InitSlots(3);
    assert First(pids, -1) == 0 && First(slots, -1) == 2;
    assert AddFd(pids, 100)[0] == 100;
    InSlotTwo(AddFd(slots, 5));
  }

  lemma InSlotTwo(slots: seq<int>)
    requires slots == FreeSlots()[0 := 0][1 := 3][2 := 5]
    ensures Clients(slots) == {5}
  {
    var s := slots[2..];
    assert s[0] == 5;
    assert forall j | 0 < j < |s| :: s[j] == -1;
  }

  /** One accepted line, and nothing delivered. */
  lemma AfterLine(line: seq<char>, m: Msg)
    requires ParseLine(line, true) == (Accepted, m) && Ready(m)
    ensures var s := Next(Next(Init(3), Connect(5, 100)), Command(line, true));
            && s.server.status == UP && Exposed(s, 5) && s.server.tables == Apply(EMPTY, Effect(m))
            && |s.server.wire[5]| == 3 && Last(s.server.wire[5]) == m
            && s.clients == map[5 := Client(EMPTY, 100, true)]
            && Inv(s) && Good(s) && InService(s)
  {
    FirstClient();
    ReadyDefined(EMPTY, m);
    PassedOn(Next(Init(3), Connect(5, 100)), line, m);
  }

  /** A signal overtakes the messages under way: a client that has not yet read of a new
      address when the flush reaches it keeps the address. */
  lemma FlushOvertakes(line: seq<char>, mac: CStr)
    requires AddsAddress(line, mac)
    ensures var steps := [Connect(5, 100), Command(line, true), Command("F\n", true)];
            Legal(Init(3), steps) && !Replicated(After(Init(3), steps))
  {
    CommandValid(line, true);
    AfterLine(line, ParseLine(line, true).1);
    AdditionOvertaken(Next(Next(Init(3), Connect(5, 100)), Command(line, true)), 5, mac);
    ThreeSteps(Init(3), Connect(5, 100), Command(line, true), Command("F\n", true));
  }

  /** With a route it keeps the route, and reads a flag that says that its routing table is
      the server's, which is empty. */
  lemma FlushLies(line: seq<char>, r: Route)
    requires Adds(line, r)
    ensures var steps := [Connect(5, 100), Command(line, true), Command("F\n", true)];
            Legal(Init(3), steps) && exists n: nat :: Surfaces(After(Init(3), steps), 5, n)
  {
    var s := Next(Next(Init(3), Connect(5, 100)), Command(line, true));
    AfterLine(line, ParseLine(line, true).1);
    FirstReady(line);
    RouteOvertaken(s, 5, r);
    ThreeSteps(Init(3), Connect(5, 100), Command(line, true), Command("F\n", true));
  }

  lemma FirstReady(line: seq<char>)
    requires var (o, m) := ParseLine(line, true); o == Accepted && Ready(m)
    ensures var s := Next(Next(Init(3), Connect(5, 100)), Command(line, true));
            5 in s.server.wire ==> AllReady(Msgs(s.server.wire[5]))
  {
    FirstClient();
    InitInv(3);
    CommandValid(line, true);
    StepReady(Init(3), Connect(5, 100));
    StepReady(Next(Init(3), Connect(5, 100)), Command(line, true));
  }

  lemma FirstStep(s: State, a: Step, rest: seq<Step>)
    requires Enabled(s, a) && Legal(Next(s, a), rest)
    ensures Legal(s, [a] + rest) && After(s, [a] + rest) == After(Next(s, a), rest)
    ensures AlwaysSound(s, [a] + rest) <==> Sound(s, a) && AlwaysSound(Next(s, a), rest)
  {
    assert ([a] + rest)[1..] == rest;
  }

  lemma ThreeSteps(s: State, a: Step, b: Step, c: Step)
    requires Enabled(s, a) && Enabled(Next(s, a), b) && Enabled(Next(Next(s, a), b), c)
    ensures Legal(s, [a, b, c]) && After(s, [a, b, c]) == Next(Next(Next(s, a), b), c)
    ensures AlwaysSound(s, [a, b, c]) <==> Sound(s, a) && Sound(Next(s, a), b) && Sound(Next(Next(s, a), b), c)
  {
    TwoSteps(Next(s, a), b, c);
    FirstStep(s, a, [b, c]);
    assert [a] + [b, c] == [a, b, c];
  }

  lemma TwoSteps(s: State, a: Step, b: Step)
    requires Enabled(s, a) && Enabled(Next(s, a), b)
    ensures Legal(s, [a, b]) && After(s, [a, b]) == Next(Next(s, a), b)
    ensures AlwaysSound(s, [a, b]) <==> Sound(s, a) && Sound(Next(s, a), b)
  {
    FirstStep(Next(s, a), b, []);
    assert [b] + [] == [b];
    FirstStep(s, a, [b]);
    assert [a] + [b] == [a, b];
  }

  /** A server at work, and a client that follows it. */
  ghost predicate Following(s: State, fd: int) {
    Inv(s) && Good(s) && InService(s) && s.server.status == UP && Reading(s, fd)
  }

  lemma ReadsOne(s: State, fd: int)
    requires Following(s, fd) && s.server.wire[fd] != []
    ensures var s' := Next(s, Deliver(fd));
            && Following(s', fd) && Sound(s, Deliver(fd))
            && s'.server == s.server.(wire := s.server.wire[fd := s.server.wire[fd][1..]])
            && s'.clients.Keys == s.clients.Keys && s'.clients[fd].pid == s.clients[fd].pid
  {
    StepInv(s, Deliver(fd));
    StepReplicates(s, Deliver(fd));
    StepTruthful(s, Deliver(fd));
    assert WireInv(UP, s.server.wire[fd]);
  }

  lemma WrittenTwice(wire: map<int, seq<Sent>>, fd: int, a: seq<Sent>, b: seq<Sent>)
    ensures wire[fd := a][fd := b] == wire[fd := b]
  {
  }

  /** What it is like once the client has read all there is. */
  ghost predicate CaughtUp(s: State, fd: int)
    requires Following(s, fd)
  {
    var ds := Deliveries(fd, |s.server.wire[fd]|);
    && Legal(s, ds) && AlwaysSound(s, ds)
    && var e := After(s, ds);
       && Following(e, fd)
       && e.server == s.server.(wire := s.server.wire[fd := []])
       && e.clients.Keys == s.clients.Keys && e.clients[fd].pid == s.clients[fd].pid
  }

  lemma {:induction false} CatchesUp(s: State, fd: int)
    requires Following(s, fd)
    ensures CaughtUp(s, fd)
    decreases |s.server.wire[fd]|
  {
    if s.server.wire[fd] == [] {
      assert s.server.wire[fd := []] == s.server.wire;
    } else {
      ReadsOne(s, fd);
      CatchesUp(Next(s, Deliver(fd)), fd);
      OneEarlier(s, fd);
    }
  }

  lemma OneEarlier(s: State, fd: int)
    requires Following(s, fd) && s.server.wire[fd] != []
    requires Following(Next(s, Deliver(fd)), fd) && CaughtUp(Next(s, Deliver(fd)), fd)
    ensures CaughtUp(s, fd)
  {
    var n := |s.server.wire[fd]|;
    ReadsOne(s, fd);
    FirstStep(s, Deliver(fd), Deliveries(fd, n - 1));
    DeliveriesStep(fd, n);
    WrittenTwice(s.server.wire, fd, s.server.wire[fd][1..], []);
  }

  /** One client, with three packets under way to it, and one route. */
  ghost predicate Started(s: State, r: Route) {
    && Inv(s) && Good(s) && InService(s) && s.server.status == UP && Exposed(s, 5)
    && s.clients.Keys == {5} && |s.server.wire[5]| == 3 && s.server.tables.rt == [r]
  }

  function Start(line: seq<char>): seq<Step> {
    [Connect(5, 100), Command(line, true)]
  }

  lemma StartSound(line: seq<char>, r: Route)
    requires Adds(line, r)
    ensures Legal(Init(3), Start(line)) && AlwaysSound(Init(3), Start(line)) && Started(After(Init(3), Start(line)), r)
  {
    FirstClient();
    InitInv(3);
    RouteStarts(line, r);
    InServiceSound(Init(3), Connect(5, 100), Command(line, true));
  }

  lemma RouteStarts(line: seq<char>, r: Route)
    requires Adds(line, r)
    ensures Started(Next(Next(Init(3), Connect(5, 100)), Command(line, true)), r)
  {
    AfterLine(line, ParseLine(line, true).1);
    OnlyRoute(r);
  }

  lemma OnlyRoute(r: Route)
    ensures Apply(EMPTY, AddRoute(r)).rt == [r]
  {
    assert FindRoute([], r.dest, r.mask) == 0 && [] + [r] == [r];
  }

  lemma InServiceSound(s: State, a: Step, b: Step)
    requires Inv(s) && InService(s) && Enabled(s, a)
    requires InService(Next(s, a)) && Enabled(Next(s, a), b) && InService(Next(Next(s, a), b))
    ensures Legal(s, [a, b]) && AlwaysSound(s, [a, b]) && After(s, [a, b]) == Next(Next(s, a), b)
  {
    StepInv(s, a);
    StepReplicates(s, a);
    StepReplicates(Next(s, a), b);
    TwoSteps(s, a, b);
  }

  /** The client has read all, and then two lines are typed. */
  function Then(a: seq<char>, b: seq<char>): seq<Step> {
    Deliveries(5, 3) + [Command(a, true), Command(b, true)]
  }

  /** A client that has a route, and is told by a SHOW that it has, before the flush: every
      step meets its guard, so the client follows the server all along; but it reads that
      its routing table is the server's of the SHOW, when it is empty. */
  lemma SoundButUntrue(line: seq<char>, r: Route)
    requires Adds(line, r)
    ensures var steps := Start(line) + Then("S\n", "F\n");
            && Legal(Init(3), steps) && AlwaysSound(Init(3), steps)
            && exists n: nat :: Surfaces(After(Init(3), steps), 5, n)
  {
    StartSound(line, r);
    OnceReadSound(After(Init(3), Start(line)), r);
    SoundAppend(Init(3), Start(line), Then("S\n", "F\n"));
  }

  lemma OnceReadSound(s: State, r: Route)
    requires Started(s, r)
    ensures Legal(s, Then("S\n", "F\n")) && AlwaysSound(s, Then("S\n", "F\n"))
    ensures exists n: nat :: Surfaces(After(s, Then("S\n", "F\n")), 5, n)
  {
    CatchesUp(s, 5);
    var e := After(s, Deliveries(5, 3));
    ShowOvertaken(e, 5);
    ShowSound(e);
    SoundAppend(s, Deliveries(5, 3), [Command("S\n", true), Command("F\n", true)]);
  }

  lemma ShowSound(s: State)
    requires Inv(s) && Good(s) && InService(s) && s.server.status == UP && Exposed(s, 5)
    requires s.clients.Keys == {5} && s.server.wire[5] == [] && s.server.tables.rt != []
    ensures var steps := [Command("S\n", true), Command("F\n", true)];
            && Legal(s, steps) && AlwaysSound(s, steps)
            && After(s, steps) == Next(Next(s, Command("S\n", true)), Command("F\n", true))
  {
    ShowCommand();
    FlushCommand();
    ShowOvertaken(s, 5);
    PassedOn(s, "S\n", BLANK.(op := NONE));
    SoundLines(s, "S\n", "F\n");
  }

  lemma SoundLines(s: State, a: seq<char>, b: seq<char>)
    requires s.server.status == UP && NoneGone(s) && s.clients.Keys == {5}
    requires ParseLine(a, true).0 == Accepted && Defined(s.server.tables, ParseLine(a, true).1)
    requires ParseLine(b, true).0 == Flushed
    requires var s1 := Next(s, Command(a, true));
             s1.server.status == UP && NoneGone(s1) && s1.clients == s.clients && FlushSoundFor(s1, 5)
    ensures var steps := [Command(a, true), Command(b, true)];
            && Legal(s, steps) && AlwaysSound(s, steps)
            && After(s, steps) == Next(Next(s, Command(a, true)), Command(b, true))
  {
    TwoSteps(s, Command(a, true), Command(b, true));
  }

  /** A client that has a route, and the line of the route again with an interface name that
      fills its field, overtaken by a flush: the client is killed, and the server is not. */
  lemma LongNameKills(line: seq<char>, r: Route, again: seq<char>, long: Route)
    requires Adds(line, r) && AddsLong(again, long) && (r.dest, r.mask) == (long.dest, long.mask)
    ensures var steps := Start(line) + Then(again, "F\n");
            && Legal(Init(3), steps)
            && var e := After(Init(3), steps); e.server.status == UP && Dies(e, 5, 0)
  {
    StartSound(line, r);
    OnceReadKilled(After(Init(3), Start(line)), r, again, long);
    LegalAppend(Init(3), Start(line), Then(again, "F\n"));
  }

  lemma OnceReadKilled(s: State, r: Route, again: seq<char>, long: Route)
    requires Started(s, r) && AddsLong(again, long) && (r.dest, r.mask) == (long.dest, long.mask)
    ensures Legal(s, Then(again, "F\n"))
    ensures var e := After(s, Then(again, "F\n")); e.server.status == UP && Dies(e, 5, 0)
  {
    CatchesUp(s, 5);
    var e := After(s, Deliveries(5, 3));
    assert FindRoute([r], r.dest, r.mask) == 0;
    NameOvertaken(e, 5, again, long);
    TwoSteps(e, Command(again, true), Command("F\n", true));
    LegalAppend(s, Deliveries(5, 3), [Command(again, true), Command("F\n", true)]);
  }

  // ----- A client that has gone -----

  /** Two clients, and the first has left without being dismissed yet. */
  const LEFT := [Connect(5, 100), Connect(6, 101), Leave(5)]

  lemma FirstLeft()
    ensures Legal(Init(3), LEFT) && AlwaysSound(Init(3), LEFT)
    ensures var s := After(Init(3), LEFT);
            && s.server.status == UP && 6 in s.clients && s.clients.Keys == {6}
            && s.server.slots == FreeSlots()[0 := 0][1 := 3][2 := 5][3 := 6]
  {
    TwoClients();
    ThreeSteps(Init(3), Connect(5, 100), Connect(6, 101), Leave(5));
  }

  lemma TwoClients()
    ensures Enabled(Init(3), Connect(5, 100)) && Sound(Init(3), Connect(5, 100))
    ensures var s1 := Next(Init(3), Connect(5, 100));
            && Enabled(s1, Connect(6, 101)) && Sound(s1, Connect(6, 101))
            && var s2 := Next(s1, Connect(6, 101));
               && s2.server.slots == FreeSlots()[0 := 0][1 := 3][2 := 5][3 := 6]
               && s2.server.status == UP && s2.clients.Keys == {5, 6} && s2.clients[5].running
  {
    FirstClient();
    SecondClient(Next(Init(3), Connect(5, 100)));
  }

  lemma SecondClient(s: State)
    requires s.server.slots == FreeSlots()[0 := 0][1 := 3][2 := 5] && s.server.tables == EMPTY
    requires s.server.status == UP && s.server.conn == 3 && s.server.wire.Keys == {5}
    ensures Enabled(s, Connect(6, 101)) && Sound(s, Connect(6, 101))
    ensures Next(s, Connect(6, 101)).server.slots == FreeSlots()[0 := 0][1 := 3][2 := 5][3 := 6]
  {
    var slots := s.server.slots;
    assert slots[0] == 0 && slots[1] == 3 && slots[2] == 5 && slots[3] == -1;
    assert First(slots, -1) == 3;
  }

  /** SIGINT then kills the server at slot 2, and the client in slot 3 is not told. */
  lemma InterruptFails(m: Msg)
    requires m.op == NONE
    ensures Legal(Init(3), LEFT) && AlwaysSound(Init(3), LEFT)
    ensures var s := After(Init(3), LEFT);
            && Enabled(s, Interrupt(m)) && 6 in Clients(s.server.slots) && 6 in s.clients
            && var s1 := Next(s, Interrupt(m));
               s1.server.status == CRASHED && 6 !in Reached(s.server.slots, s.clients.Keys)
  {
    FirstLeft();
    LeftStops(After(Init(3), LEFT));
  }

  lemma LeftStops(s: State)
    requires s.server.slots == FreeSlots()[0 := 0][1 := 3][2 := 5][3 := 6] && s.clients.Keys == {6}
    ensures 6 in Clients(s.server.slots) && !NoneGone(s)
    ensures var slots := s.server.slots; !Survives(slots, s.clients.Keys) && 6 !in Reached(slots, s.clients.Keys)
  {
    var slots := s.server.slots;
    SlotThree(slots);
    ReachedIff(slots, {6}, 3);
    assert Departed(slots[2], {6});
    SurvivesIff(slots, {6});
  }

  lemma SlotThree(slots: seq<int>)
    requires slots == FreeSlots()[0 := 0][1 := 3][2 := 5][3 := 6]
    ensures Distinct(slots) && 5 in Clients(slots) && 6 in Clients(slots) && slots[2] == 5 && slots[3] == 6
  {
    assert slots[2..][0] == 5 && slots[2..][1] == 6;
  }

  /** So does any line that leads to a broadcast. */
  lemma BroadcastFails(raw: seq<char>, stored: bool)
    requires ParseLine(raw, stored).0 == Accepted
    ensures Legal(Init(3), LEFT) && AlwaysSound(Init(3), LEFT)
    ensures var s := After(Init(3), LEFT);
            && Enabled(s, Command(raw, stored))
            && Next(s, Command(raw, stored)).server.status == CRASHED
            && 6 !in Reached(s.server.slots, s.clients.Keys)
  {
    InterruptFails(BLANK.(op := NONE));
    FirstLeft();
    LeftFails(After(Init(3), LEFT), raw, stored);
  }

  lemma LeftFails(s: State, raw: seq<char>, stored: bool)
    requires s.server.status == UP && ParseLine(raw, stored).0 == Accepted
    requires s.server.slots == FreeSlots()[0 := 0][1 := 3][2 := 5][3 := 6] && s.clients.Keys == {6}
    ensures Next(s, Command(raw, stored)).server.status == CRASHED
  {
    SlotThree(s.server.slots);
    SurvivesIff(s.server.slots, {6});
    MessageFails(s.server, s.clients.Keys, ParseLine(raw, stored).1);
  }

  lemma MessageFails(sv: Server, peers: set<int>, m: Msg)
    requires !Survives(sv.slots, peers)
    ensures OnMessage(sv, peers, m).status == CRASHED
  {
  }

  /** An unfinished line takes the server down, with nobody told. */
  lemma LineFails(s: State, ip: CStr, stored: bool)
    requires IsIp(ip) && Enabled(s, Command(Unfinished(ip) + "\n", stored))
    ensures var s' := Next(s, Command(Unfinished(ip) + "\n", stored));
            s'.server.status == CRASHED && s'.server.wire == s.server.wire
  {
    UnfinishedLine(ip, stored);
  }

  /** A client that has gone before its welcome takes the server down. */
  lemma LostFails()
    ensures Legal(Init(3), [Lost(5, 100)]) && After(Init(3), [Lost(5, 100)]).server.status == CRASHED
  {
    FirstStep(Init(3), Lost(5, 100), []);
    assert [Lost(5, 100)] + [] == [Lost(5, 100)];
  }

  // ----- A snapshot -----

  /** Two routes of which the second is shorter somewhere, and then a client: it does not
      get the server's routing table. */
  lemma SnapshotFails(line1: seq<char>, a: Route, line2: seq<char>, b: Route)
    requires Adds(line1, a) && Adds(line2, b) && (a.dest, a.mask) != (b.dest, b.mask) && !Narrower(a, b)
    ensures var steps := [Command(line1, true), Command(line2, true), Connect(5, 100)];
            Legal(Init(3), steps) && !Replicated(After(Init(3), steps))
  {
    InitInv(3);
    InitSlots(3);
    TwoRoutesFail(Init(3), line1, a, line2, b);
  }

  lemma TwoRoutesFail(s: State, line1: seq<char>, a: Route, line2: seq<char>, b: Route)
    requires Adds(line1, a) && Adds(line2, b) && (a.dest, a.mask) != (b.dest, b.mask) && !Narrower(a, b)
    requires Alone(s) && s.server.tables.rt == [] && s.server.slots[2] == -1
    ensures var steps := [Command(line1, true), Command(line2, true), Connect(5, 100)];
            Legal(s, steps) && !Replicated(After(s, steps))
  {
    TwoRoutes(s, line1, a, line2, b);
    NarrowFails(Next(Next(s, Command(line1, true)), Command(line2, true)), a, b);
    ThreeSteps(s, Command(line1, true), Command(line2, true), Connect(5, 100));
  }

  lemma TwoRoutes(s: State, line1: seq<char>, a: Route, line2: seq<char>, b: Route)
    requires Adds(line1, a) && Adds(line2, b) && (a.dest, a.mask) != (b.dest, b.mask)
    requires Alone(s) && s.server.tables.rt == []
    ensures var s1 := Next(s, Command(line1, true));
            && s1.server.status == UP
            && var s2 := Next(s1, Command(line2, true));
               Alone(s2) && InService(s2) && s2.server.slots == s.server.slots && s2.server.tables.rt == [a, b]
  {
    OneMoreRoute(s, line1, a);
    assert [] + [a] == [a] && FindRoute([a], b.dest, b.mask) == 1;
    OneMoreRoute(Next(s, Command(line1, true)), line2, b);
    assert [a] + [b] == [a, b];
  }

  /** A server without clients. */
  ghost predicate Alone(s: State) {
    Inv(s) && Good(s) && s.server.status == UP && s.clients == map[] && s.server.wire == map[] && s.server.conn == 3
  }

  lemma OneMoreRoute(s: State, line: seq<char>, r: Route)
    requires Alone(s) && Adds(line, r) && Lookup(s.server.tables.rt, r.dest, r.mask).Absent?
    ensures var s' := Next(s, Command(line, true));
            && Alone(s') && InService(s') && s'.server.slots == s.server.slots
            && s'.server.tables.rt == s.server.tables.rt + [r]
  {
    var m := ParseLine(line, true).1;
    ReadyDefined(s.server.tables, m);
    PassedOn(s, line, m);
  }

  lemma NarrowFails(s: State, a: Route, b: Route)
    requires Alone(s) && InService(s) && s.server.tables.rt == [a, b] && !Narrower(a, b)
    requires s.server.slots[2] == -1
    ensures Enabled(s, Connect(5, 100)) && !Replicated(Next(s, Connect(5, 100)))
  {
    assert !Widening([a, b]) by {
      assert !Narrower([a, b][1 - 1], [a, b][1]);
    }
    StepReplicates(s, Connect(5, 100));
  }

  /** So tables as those of `SnapshotLosesRoute` come about. */
  lemma LosingRun()
    ensures var steps := [Command(PrintRoute(FIRST) + "\n", true), Command(PrintRoute(SECOND) + "\n", true), Connect(5, 100)];
            Legal(Init(3), steps) && !Replicated(After(Init(3), steps))
  {
    ExampleRoutes();
    PlainNames();
    AddRouteCommand(FIRST);
    AddRouteCommand(SECOND);
    SnapshotFails(PrintRoute(FIRST) + "\n", FIRST, PrintRoute(SECOND) + "\n", SECOND);
  }

  lemma PlainNames()
    ensures OneLine(FIRST.oif) && OneLine(SECOND.oif)
  {
  }
}
