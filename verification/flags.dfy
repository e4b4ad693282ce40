/** The flags that tell a client that a table of its own is up to date. */
module Flags {
  import opened CString
  import opened Address
  import opened Message
  import opened Table
  import opened Slots
  import opened Snapshot
  import opened Protocol
  import opened Replication
  import opened Runs

  /** Whenever a packet says that a table is up to date, it is, once the packet has been
      processed: it equals the server's table when the packet was written. */
  ghost predicate Truthful(t: Tables, w: seq<Sent>)
    decreases |w|
  {
    w != [] ==>
      var t' := Apply(t, Effect(w[0].packet.msg));
      Honest(t', w[0]) && Truthful(t', w[1..])
  }

  predicate Honest(t: Tables, s: Sent) {
    && (s.packet.synchronized == RT ==> t.rt == s.stamp.rt)
    && (s.packet.synchronized == ML ==> t.ml == s.stamp.ml)
  }

  ghost predicate AllTruthful(s: State) {
    forall fd | fd in s.clients :: fd in s.server.wire && Truthful(s.clients[fd].tables, s.server.wire[fd])
  }

  /** Every client lives to read its flags. */
  ghost predicate AllSmooth(s: State) {
    forall fd | fd in s.clients :: fd in s.server.wire && Smooth(s.clients[fd].tables, Msgs(s.server.wire[fd]))
  }

  lemma {:induction false} TruthfulAppend(t: Tables, a: seq<Sent>, b: seq<Sent>)
    ensures Truthful(t, a + b) <==> Truthful(t, a) && Truthful(Replay(t, Msgs(a)), b)
    decreases |a|
  {
    if a == [] {
      assert a + b == b;
    } else {
      assert (a + b)[1..] == a[1..] + b;
      assert Msgs(a)[1..] == Msgs(a[1..]);
      TruthfulAppend(Apply(t, Effect(a[0].packet.msg)), a[1..], b);
    }
  }

  lemma {:induction false} WaitTruthful(t: Tables, ms: seq<Msg>, stamp: Tables)
    ensures Truthful(t, Stamped(ms, WAIT, stamp))
    decreases |ms|
  {
    if ms != [] {
      assert Stamped(ms, WAIT, stamp)[1..] == Stamped(ms[1..], WAIT, stamp);
      WaitTruthful(Apply(t, Effect(ms[0])), ms[1..], stamp);
    }
  }

  predicate LeavesRoutes(ms: seq<Msg>) {
    forall m | m in ms :: m.l == L2 || m.op == NONE
  }

  /** The entries of the second phase still carry the flag of the first. */
  lemma {:induction false} MacPhaseTruthful(t: Tables, ms: seq<Msg>, stamp: Tables)
    requires LeavesRoutes(ms)
    ensures Replay(t, ms).rt == t.rt
    ensures t.rt == stamp.rt ==> Truthful(t, Stamped(ms, RT, stamp))
    decreases |ms|
  {
    if ms != [] {
      assert ms[0] in ms;
      assert Stamped(ms, RT, stamp)[1..] == Stamped(ms[1..], RT, stamp);
      MacPhaseTruthful(Apply(t, Effect(ms[0])), ms[1..], stamp);
    }
  }

  lemma {:induction false} MacStreamLeavesRoutes(ml: seq<CStr>, m: Msg)
    requires m.body[MAC_ADDR_LEN - 1] == NUL && forall mac | mac in ml :: IsMac(mac)
    ensures LeavesRoutes(MacStream(ml, m))
    decreases |ml|
  {
    if ml != [] {
      ReparseMac(ml[0], m.(op := CREATE));
      MacStreamLeavesRoutes(ml[1..], MacMessage(ml[0], m));
    }
  }

  lemma TruthfulOne(t: Tables, s: Sent)
    ensures Truthful(t, [s]) <==> Honest(Apply(t, Effect(s.packet.msg)), s)
  {
  }

  lemma PhaseTruthful(t: Tables, ms: seq<Msg>, during: int, atEnd: int, stamp: Tables)
    requires ms != [] && Truthful(t, Stamped(ms[..|ms| - 1], during, stamp))
    ensures Truthful(t, Phase(ms, during, atEnd, stamp))
       <==> Honest(Replay(t, ms), Sent(Packet(ms[|ms| - 1], atEnd, 1), stamp))
  {
    var a := Stamped(ms[..|ms| - 1], during, stamp);
    var last := Sent(Packet(ms[|ms| - 1], atEnd, 1), stamp);
    assert Msgs(a) == ms[..|ms| - 1];
    TruthfulAppend(t, a, [last]);
    TruthfulOne(Replay(t, Msgs(a)), last);
    assert ms == ms[..|ms| - 1] + [ms[|ms| - 1]];
    ReplaySnoc(t, ms[..|ms| - 1], ms[|ms| - 1]);
  }

  /** The flags sent to a new client are truthful exactly when the table is widening. */
  lemma WelcomeTruthful(t: Tables)
    requires ValidTables(t)
    ensures Truthful(EMPTY, Welcome(t)) <==> Widening(t.rt)
  {
    var rs := RouteStream(t.rt, BLANK);
    var ms := MacStream(t.ml, rs[|t.rt|]);
    var t1 := Replay(EMPTY, rs);
    WelcomeReplays(t);
    WaitTruthful(EMPTY, rs[..|rs| - 1], t);
    PhaseTruthful(EMPTY, rs, WAIT, RT, t);
    PhaseMsgs(rs, WAIT, RT, t);
    TruthfulAppend(EMPTY, Phase(rs, WAIT, RT, t), Phase(ms, RT, ML, t));
    if Widening(t.rt) {
      BlankClean();
      RouteStreamReplays(EMPTY, t.rt, BLANK);
      MacStreamLeavesRoutes(t.ml, rs[|t.rt|]);
      MacPhaseTruthful(t1, ms[..|ms| - 1], t);
      PhaseTruthful(t1, ms, RT, ML, t);
      ReplayAppend(EMPTY, rs, ms);
    }
  }

  /** Every flag under way will be read and be true, and as long as the server is there to
      send more, its registered clients are in step. */
  ghost predicate Good(s: State) {
    AllTruthful(s) && AllSmooth(s) && (s.server.status == CRASHED || Replicated(s))
  }

  /** What the flags need of a step. Clients without a slot are welcomed too, so there is
      no exception for them. */
  ghost predicate Candid(s: State, step: Step) {
    match step
    case Connect(fd, pid) => Widening(s.server.tables.rt)
    case Command(raw, stored) => ParseLine(raw, stored).0 == Flushed ==> FlushCandid(s)
    case _ => true
  }

  ghost predicate FlushCandid(s: State) {
    && (NoneGone(s) ==> FlushSound(s))
    && (forall fd | fd in s.clients :: FlagsHold(s, fd))
  }

  predicate Signalled(s: State, fd: int)
    requires fd in s.clients
  {
    s.clients[fd].pid in Members(s.server.pids)
  }

  /** For a client that the signal empties, the flags under way tell the truth from empty
      tables on, and it lives to read them. The flag that goes with the flush itself is
      about routes. */
  ghost predicate FlagsHold(s: State, fd: int)
    requires fd in s.clients
  {
    && (Signalled(s, fd) ==>
          && fd in s.server.wire
          && Truthful(EMPTY, s.server.wire[fd]) && NamesUnread(Msgs(s.server.wire[fd])))
    && (fd in Reached(s.server.slots, s.clients.Keys) ==>
          if Signalled(s, fd)
          then fd in s.server.wire && RoutesCancelled(Msgs(s.server.wire[fd]))
          else s.server.tables.rt == [])
  }

  /** A packet whose stamp is the table it produces is truthful for everyone in step. */
  lemma MessageTruthful(s: State, m: Msg)
    requires Inv(s) && Replicated(s) && AllTruthful(s) && AllSmooth(s)
    ensures var s' := State(OnMessage(s.server, s.clients.Keys, m), s.clients); AllTruthful(s') && AllSmooth(s')
  {
    var t := Apply(s.server.tables, Effect(m));
    var p := Update(m, t);
    ReachedAreClients(s.server.slots, s.clients.Keys);
    if Defined(s.server.tables, m) {
      forall fd | fd in s.clients && fd in Reached(s.server.slots, s.clients.Keys)
        ensures Truthful(s.clients[fd].tables, s.server.wire[fd] + [p])
        ensures Smooth(s.clients[fd].tables, Msgs(s.server.wire[fd] + [p]))
      {
        assert InStep(s, fd);
        TruthfulAppend(s.clients[fd].tables, s.server.wire[fd], [p]);
        TruthfulOne(s.server.tables, p);
        Appended(s.clients[fd].tables, s.server.wire[fd], p);
      }
    }
  }

  /** One client after a flush: its flags are true exactly when its guard holds. */
  lemma FlushTruthfulOne(s: State, m: Msg, fd: int)
    requires Inv(s) && s.server.status == UP && Good(s) && m == BLANK.(op := NONE) && fd in s.clients
    ensures var s' := AfterFlush(s, m);
            && fd in s'.clients && fd in s'.server.wire
            && var t, w := s'.clients[fd].tables, s'.server.wire[fd];
               Truthful(t, w) && Smooth(t, Msgs(w)) <==> FlagsHold(s, fd)
  {
    var e := Emptied(s);
    var w, t, p := s.server.wire[fd], e.clients[fd].tables, Update(m, EMPTY);
    assert e.clients.Keys == s.clients.Keys;
    ReachedAreClients(s.server.slots, s.clients.Keys);
    SmoothExact(Msgs(w));
    if fd in Reached(s.server.slots, s.clients.Keys) {
      assert InStep(s, fd);
      assert AfterFlush(s, m).server.wire[fd] == w + [p];
      LastFlag(t, w, m);
      RoutesCancelledExact(Msgs(w));
    }
  }

  /** The packet that goes with a flush. */
  lemma LastFlag(t: Tables, w: seq<Sent>, m: Msg)
    requires m == BLANK.(op := NONE)
    ensures var w' := w + [Update(m, EMPTY)];
            && (Truthful(t, w') <==> Truthful(t, w) && Replay(t, Msgs(w)).rt == [])
            && (Smooth(t, Msgs(w')) <==> Smooth(t, Msgs(w)))
  {
    var p := Update(m, EMPTY);
    TruthfulAppend(t, w, [p]);
    TruthfulOne(Replay(t, Msgs(w)), p);
    Appended(t, w, p);
  }

  lemma FlushTruthful(s: State, m: Msg)
    requires Inv(s) && s.server.status == UP && Good(s) && m == BLANK.(op := NONE)
    ensures Good(AfterFlush(s, m)) <==> FlushCandid(s)
  {
    var s' := AfterFlush(s, m);
    assert s'.clients.Keys == s.clients.Keys;
    forall fd | fd in s.clients
      ensures && fd in s'.server.wire
              && var t, w := s'.clients[fd].tables, s'.server.wire[fd];
                 Truthful(t, w) && Smooth(t, Msgs(w)) <==> FlagsHold(s, fd)
    {
      FlushTruthfulOne(s, m, fd);
    }
    SurvivesIff(s.server.slots, s.clients.Keys);
    FlushReplicates(s, m);
  }

  lemma InterruptTruthful(s: State, m: Msg)
    requires Inv(s) && AllTruthful(s) && AllSmooth(s) && Enabled(s, Interrupt(m))
    ensures AllTruthful(Next(s, Interrupt(m))) && AllSmooth(Next(s, Interrupt(m)))
  {
    var p := Farewell(m, s.server.tables);
    forall fd | fd in s.clients
      ensures Truthful(s.clients[fd].tables, s.server.wire[fd] + [p])
      ensures Smooth(s.clients[fd].tables, Msgs(s.server.wire[fd] + [p]))
    {
      Appended(s.clients[fd].tables, s.server.wire[fd], p);
      TruthfulAppend(s.clients[fd].tables, s.server.wire[fd], [p]);
      TruthfulOne(Replay(s.clients[fd].tables, Msgs(s.server.wire[fd])), p);
    }
  }

  lemma ConnectTruthful(s: State, fd: int, pid: int)
    requires Inv(s) && AllTruthful(s) && AllSmooth(s) && Enabled(s, Connect(fd, pid))
    ensures var s' := Next(s, Connect(fd, pid)); AllSmooth(s') && (AllTruthful(s') <==> Widening(s.server.tables.rt))
  {
    var s' := Next(s, Connect(fd, pid));
    WelcomeTruthful(s.server.tables);
    WelcomeLeads(s.server.tables);
    assert s'.clients[fd].tables == EMPTY && s'.server.wire[fd] == Welcome(s.server.tables);
    if Widening(s.server.tables.rt) {
      forall g | g in s'.clients
        ensures g in s'.server.wire && Truthful(s'.clients[g].tables, s'.server.wire[g])
      {
      }
    }
  }

  lemma CommandTruthful(s: State, raw: seq<char>, stored: bool)
    requires Inv(s) && Good(s) && s.server.status == UP
    ensures Good(Next(s, Command(raw, stored))) <==> Candid(s, Command(raw, stored))
  {
    var (o, m) := ParseLine(raw, stored);
    match o
    case Accepted =>
      MessageTruthful(s, m);
      MessageReplicates(s, m);
      SurvivesIff(s.server.slots, s.clients.Keys);
    case Flushed =>
      CommandValid(raw, stored);
      FlushTruthful(s, m);
      FlushedNext(s, raw, stored);
    case Rejected =>
    case Undefined =>
  }

  lemma DeliverTruthful(s: State, fd: int)
    requires Inv(s) && AllTruthful(s) && AllSmooth(s) && Enabled(s, Deliver(fd))
    ensures AllTruthful(Next(s, Deliver(fd))) && AllSmooth(Next(s, Deliver(fd)))
  {
    var w := s.server.wire[fd];
    assert Msgs(w)[1..] == Msgs(w[1..]);
  }

  /** A step keeps all flags truthful exactly when it is candid. */
  lemma StepTruthful(s: State, step: Step)
    requires Inv(s) && Good(s) && Enabled(s, step)
    ensures Good(Next(s, step)) <==> Candid(s, step)
  {
    if InService(s) {
      StepReplicates(s, step);
    }
    match step
    case Connect(fd, pid) => ConnectTruthful(s, fd, pid);
    case Lost(fd, pid) =>
    case Command(raw, stored) => CommandTruthful(s, raw, stored);
    case Deliver(fd) => DeliverTruthful(s, fd);
    case EndOfFile(fd) =>
    case Leave(fd) =>
    case Done(fd) =>
    case Interrupt(m) =>
      InterruptTruthful(s, m);
      SurvivesIff(s.server.slots, s.clients.Keys);
  }

  /** What a channel has gained carries this stamp. */
  ghost predicate Gained(was: seq<Sent>, now: seq<Sent>, t: Tables) {
    && |was| <= |now| && now[..|was|] == was
    && forall i | |was| <= i < |now| :: now[i].stamp == t
  }

  function Channel(wire: map<int, seq<Sent>>, fd: int): seq<Sent> {
    if fd in wire then wire[fd] else []
  }

  /** What a step appends to a channel carries the tables that the server has after it. */
  lemma StampIsNow(s: State, step: Step, fd: int)
    requires Enabled(s, step) && !step.Deliver? && fd in Next(s, step).server.wire
    ensures var s' := Next(s, step);
            Gained(Channel(s.server.wire, fd), s'.server.wire[fd], s'.server.tables)
  {
    match step
    case Connect(_, _) => WelcomeStamps(s.server.tables);
    case Command(raw, stored) => CommandStamps(s.server, s.clients.Keys, raw, stored, fd);
    case Interrupt(m) => SendStamps(s.server, s.clients.Keys, Farewell(m, s.server.tables), fd);
    case _ =>
  }

  lemma CommandStamps(sv: Server, peers: set<int>, raw: seq<char>, stored: bool, fd: int)
    requires fd in sv.wire
    ensures var sv' := OnCommand(sv, peers, raw, stored);
            fd in sv'.wire && Gained(sv.wire[fd], sv'.wire[fd], sv'.tables)
  {
    var (o, m) := ParseLine(raw, stored);
    OutcomeStamps(sv, peers, o, m, fd);
  }

  lemma OutcomeStamps(sv: Server, peers: set<int>, o: Outcome, m: Msg, fd: int)
    requires fd in sv.wire
    ensures var sv' := OnOutcome(sv, peers, o, m);
            fd in sv'.wire && Gained(sv.wire[fd], sv'.wire[fd], sv'.tables)
  {
    MessageStamps(sv, peers, m, fd);
    MessageStamps(sv.(tables := EMPTY), peers, m, fd);
  }

  lemma MessageStamps(sv: Server, peers: set<int>, m: Msg, fd: int)
    requires fd in sv.wire
    ensures var sv' := OnMessage(sv, peers, m); fd in sv'.wire && Gained(sv.wire[fd], sv'.wire[fd], sv'.tables)
  {
    var t := Apply(sv.tables, Effect(m));
    SendStamps(sv.(tables := t), peers, Update(m, t), fd);
  }

  lemma SendStamps(sv: Server, peers: set<int>, p: Sent, fd: int)
    requires fd in sv.wire && p.stamp == sv.tables
    ensures var sv' := Send(sv, peers, p); fd in sv'.wire && Gained(sv.wire[fd], sv'.wire[fd], sv'.tables)
  {
  }

  lemma WelcomeStamps(t: Tables)
    ensures forall i | 0 <= i < |Welcome(t)| :: Welcome(t)[i].stamp == t
  {
    var rs := RouteStream(t.rt, BLANK);
    PhaseStamps(rs, WAIT, RT, t);
    PhaseStamps(MacStream(t.ml, rs[|t.rt|]), RT, ML, t);
  }

  lemma PhaseStamps(ms: seq<Msg>, during: int, atEnd: int, t: Tables)
    requires ms != []
    ensures forall i | 0 <= i < |ms| :: Phase(ms, during, atEnd, t)[i].stamp == t
  {
  }

  ghost predicate AlwaysCandid(s: State, steps: seq<Step>)
    requires Legal(s, steps)
    decreases |steps|
  {
    steps != [] ==> Candid(s, steps[0]) && AlwaysCandid(Next(s, steps[0]), steps[1..])
  }

  ghost predicate AlwaysGood(s: State, steps: seq<Step>)
    requires Legal(s, steps)
    decreases |steps|
  {
    Good(s) && (steps != [] ==> AlwaysGood(Next(s, steps[0]), steps[1..]))
  }

  lemma {:induction false} RunTruthfulFrom(s: State, steps: seq<Step>)
    requires Inv(s) && Good(s) && Legal(s, steps)
    ensures AlwaysGood(s, steps) <==> AlwaysCandid(s, steps)
    ensures AlwaysCandid(s, steps) ==> Good(After(s, steps))
    decreases |steps|
  {
    if steps != [] {
      StepInv(s, steps[0]);
      StepTruthful(s, steps[0]);
      if Candid(s, steps[0]) {
        RunTruthfulFrom(Next(s, steps[0]), steps[1..]);
      } else {
        assert !AlwaysGood(Next(s, steps[0]), steps[1..]);
      }
    }
  }

  /** On every run, to its end or to a crash: all flags under way are true in every state,
      with the registered clients in step, if and only if every step was candid. */
  lemma RunTruthful(conn: int, steps: seq<Step>)
    requires conn > 0 && Legal(Init(conn), steps)
    ensures AlwaysGood(Init(conn), steps) <==> AlwaysCandid(Init(conn), steps)
  {
    InitInv(conn);
    RunTruthfulFrom(Init(conn), steps);
  }

  /** On every candid run no client is killed by what it reads; and when it finishes a packet
      with the flag RT (or ML), its routing table (or MAC list) is the one the server had
      when it wrote the packet. */
  lemma FlagsTruthful(conn: int, steps: seq<Step>, fd: int)
    requires conn > 0 && Legal(Init(conn), steps) && AlwaysCandid(Init(conn), steps)
    requires Enabled(After(Init(conn), steps), Deliver(fd))
    ensures var s := After(Init(conn), steps);
            fd in Next(s, Deliver(fd)).clients && Honest(Next(s, Deliver(fd)).clients[fd].tables, s.server.wire[fd][0])
  {
    InitInv(conn);
    RunTruthfulFrom(Init(conn), steps);
  }

  function Deliveries(fd: int, n: nat): (steps: seq<Step>)
    ensures |steps| == n
  {
    seq(n, _ => Deliver(fd))
  }

  lemma DeliveriesStep(fd: int, n: nat)
    requires n > 0
    ensures Deliveries(fd, n)[0] == Deliver(fd) && Deliveries(fd, n)[1..] == Deliveries(fd, n - 1)
    ensures Deliveries(fd, n) == [Deliver(fd)] + Deliveries(fd, n - 1)
  {
  }

  /** And a flag that is not going to be true is one the client will read, if it lives to
      read it: it only has to read on. */
  lemma {:induction false} FalseFlagShows(s: State, fd: int)
    requires Inv(s) && s.server.status == UP && Reading(s, fd)
    requires !Truthful(s.clients[fd].tables, s.server.wire[fd])
          || !Smooth(s.clients[fd].tables, Msgs(s.server.wire[fd]))
    ensures exists n: nat :: Surfaces(s, fd, n) || Dies(s, fd, n)
    ensures Smooth(s.clients[fd].tables, Msgs(s.server.wire[fd])) ==> exists n: nat :: Surfaces(s, fd, n)
    decreases |s.server.wire[fd]|
  {
    var w := s.server.wire[fd];
    var s1 := Next(s, Deliver(fd));
    assert Msgs(w)[1..] == Msgs(w[1..]);
    if fd !in s1.clients {
      assert Dies(s, fd, 0);
    } else if Honest(s1.clients[fd].tables, w[0]) {
      StepInv(s, Deliver(fd));
      FalseFlagShows(s1, fd);
      var n: nat :| Surfaces(s1, fd, n) || Dies(s1, fd, n);
      Later(s, fd, n);
      if Smooth(s.clients[fd].tables, Msgs(w)) {
        n :| Surfaces(s1, fd, n);
        Later(s, fd, n);
      }
    } else {
      assert Surfaces(s, fd, 0);
    }
  }

  /** After `n` more packets the client reads one with a flag that is false. */
  ghost predicate Surfaces(s: State, fd: int, n: nat) {
    && Legal(s, Deliveries(fd, n))
    && var e := After(s, Deliveries(fd, n));
       && Enabled(e, Deliver(fd)) && fd in Next(e, Deliver(fd)).clients
       && !Honest(Next(e, Deliver(fd)).clients[fd].tables, e.server.wire[fd][0])
  }

  /** After `n` more packets the client reads one that kills it. */
  ghost predicate Dies(s: State, fd: int, n: nat) {
    && Legal(s, Deliveries(fd, n))
    && var e := After(s, Deliveries(fd, n));
       Enabled(e, Deliver(fd)) && fd !in Next(e, Deliver(fd)).clients
  }

  lemma Later(s: State, fd: int, n: nat)
    requires Enabled(s, Deliver(fd))
    ensures Surfaces(Next(s, Deliver(fd)), fd, n) ==> Surfaces(s, fd, n + 1)
    ensures Dies(Next(s, Deliver(fd)), fd, n) ==> Dies(s, fd, n + 1)
  {
    DeliveriesStep(fd, n + 1);
  }
}
