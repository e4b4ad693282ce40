/** Runs of the protocol: replication and safety, whatever the steps. */
module Runs {
  import opened Message
  import opened Table
  import opened Slots
  import opened Snapshot
  import opened Protocol
  import opened Replication

  ghost predicate Legal(s: State, steps: seq<Step>)
    decreases |steps|
  {
    steps == [] || (Enabled(s, steps[0]) && Legal(Next(s, steps[0]), steps[1..]))
  }

  ghost function After(s: State, steps: seq<Step>): State
    requires Legal(s, steps)
    decreases |steps|
  {
    if steps == [] then s else After(Next(s, steps[0]), steps[1..])
  }

  lemma {:induction false} LegalAppend(s: State, a: seq<Step>, b: seq<Step>)
    ensures Legal(s, a + b) <==> Legal(s, a) && Legal(After(s, a), b)
    ensures Legal(s, a + b) ==> After(s, a + b) == After(After(s, a), b)
    decreases |a|
  {
    if a == [] {
      assert a + b == b;
    } else {
      assert (a + b)[1..] == a[1..] + b;
      if Enabled(s, a[0]) {
        LegalAppend(Next(s, a[0]), a[1..], b);
      }
    }
  }

  lemma LegalSnoc(s: State, steps: seq<Step>, last: Step)
    requires Legal(s, steps) && Enabled(After(s, steps), last)
    ensures Legal(s, steps + [last]) && After(s, steps + [last]) == Next(After(s, steps), last)
  {
    LegalAppend(s, steps, [last]);
  }

  /** In every state of the run the server has not crashed and its registered clients are
      in step. */
  ghost predicate AlwaysInService(s: State, steps: seq<Step>)
    requires Legal(s, steps)
    decreases |steps|
  {
    InService(s) && (steps != [] ==> AlwaysInService(Next(s, steps[0]), steps[1..]))
  }

  /** Every step of the run met its guard. */
  ghost predicate AlwaysSound(s: State, steps: seq<Step>)
    requires Legal(s, steps)
    decreases |steps|
  {
    steps != [] ==> Sound(s, steps[0]) && AlwaysSound(Next(s, steps[0]), steps[1..])
  }

  lemma {:induction false} SoundAppend(s: State, a: seq<Step>, b: seq<Step>)
    requires Legal(s, a) && Legal(After(s, a), b)
    ensures Legal(s, a + b) && After(s, a + b) == After(After(s, a), b)
    ensures AlwaysSound(s, a + b) <==> AlwaysSound(s, a) && AlwaysSound(After(s, a), b)
    decreases |a|
  {
    LegalAppend(s, a, b);
    if a == [] {
      assert a + b == b;
    } else {
      assert (a + b)[0] == a[0] && (a + b)[1..] == a[1..] + b;
      SoundAppend(Next(s, a[0]), a[1..], b);
    }
  }

  lemma {:induction false} RunInv(s: State, steps: seq<Step>)
    requires Inv(s) && Legal(s, steps)
    ensures Inv(After(s, steps))
    decreases |steps|
  {
    if steps != [] {
      StepInv(s, steps[0]);
      RunInv(Next(s, steps[0]), steps[1..]);
    }
  }

  lemma {:induction false} ConnStays(s: State, steps: seq<Step>)
    requires Legal(s, steps)
    ensures After(s, steps).server.conn == s.server.conn
    decreases |steps|
  {
    if steps != [] {
      ConnStays(Next(s, steps[0]), steps[1..]);
    }
  }

  lemma {:induction false} RunReplicatesFrom(s: State, steps: seq<Step>)
    requires Inv(s) && InService(s) && Legal(s, steps)
    ensures AlwaysInService(s, steps) <==> AlwaysSound(s, steps)
    ensures AlwaysSound(s, steps) ==> InService(After(s, steps))
    decreases |steps|
  {
    if steps != [] {
      StepInv(s, steps[0]);
      StepReplicates(s, steps[0]);
      if Sound(s, steps[0]) {
        RunReplicatesFrom(Next(s, steps[0]), steps[1..]);
      } else {
        assert !AlwaysInService(Next(s, steps[0]), steps[1..]);
      }
    }
  }

  /** On every run of the system, the server never crashes and the undelivered messages of
      every registered client lead to exactly the server's tables in every state, if and
      only if every step met its guard. */
  lemma RunReplicates(conn: int, steps: seq<Step>)
    requires conn > 0 && Legal(Init(conn), steps)
    ensures AlwaysInService(Init(conn), steps) <==> AlwaysSound(Init(conn), steps)
  {
    InitInv(conn);
    RunReplicatesFrom(Init(conn), steps);
  }

  lemma SoundEnd(conn: int, steps: seq<Step>)
    requires conn > 0 && Legal(Init(conn), steps) && AlwaysSound(Init(conn), steps)
    ensures var s := After(Init(conn), steps); Inv(s) && InService(s)
  {
    InitInv(conn);
    RunReplicatesFrom(Init(conn), steps);
    RunInv(Init(conn), steps);
  }

  /** In every reachable state, and whatever the guards: slot 0 holds stdin and slot 1 the
      master socket until that is closed, no descriptor is held twice, every descriptor from
      slot 2 on is an open socket, no table holds a key twice, and every string that a client
      is sent ends inside its field, but for interface names. */
  lemma RunSafety(conn: int, steps: seq<Step>)
    requires conn > 0 && Legal(Init(conn), steps)
    ensures var s := After(Init(conn), steps);
            && Anchored(s.server.slots, if s.server.status == STOPPED then -1 else conn)
            && Slots.Clients(s.server.slots) <= s.server.wire.Keys
            && s.server.conn == conn
            && ValidTables(s.server.tables)
            && (forall fd | fd in s.clients :: Unique(s.clients[fd].tables))
            && (forall fd | fd in s.server.wire :: AllAddressed(Msgs(s.server.wire[fd])))
  {
    InitInv(conn);
    RunInv(Init(conn), steps);
    ConnStays(Init(conn), steps);
    var s := After(Init(conn), steps);
    forall fd | fd in s.server.wire ensures AllAddressed(Msgs(s.server.wire[fd])) {
      assert WireInv(s.server.status, s.server.wire[fd]);
    }
  }

  ghost predicate AllAddressed(ms: seq<Msg>) {
    forall i | 0 <= i < |ms| :: Addressed(ms[i])
  }

  // ----- Interface names -----

  ghost predicate WiresReady(s: State) {
    forall fd | fd in s.server.wire :: AllReady(Msgs(s.server.wire[fd]))
  }

  /** The line has no interface name that fills its field. */
  predicate Spares(step: Step) {
    step.Command? ==> !Fills(WordsOf(Line(step.raw)))
  }

  lemma ReadyAppended(w: seq<Sent>, p: Sent)
    requires AllReady(Msgs(w)) && Ready(p.packet.msg)
    ensures AllReady(Msgs(w + [p]))
  {
    MsgsAppend(w, [p]);
  }

  lemma SendReady(sv: Server, peers: set<int>, p: Sent)
    requires forall fd | fd in sv.wire :: AllReady(Msgs(sv.wire[fd]))
    requires Ready(p.packet.msg)
    ensures forall fd | fd in sv.wire :: AllReady(Msgs(Send(sv, peers, p).wire[fd]))
  {
    forall fd | fd in sv.wire ensures AllReady(Msgs(sv.wire[fd] + [p])) {
      ReadyAppended(sv.wire[fd], p);
    }
  }

  lemma MessageReady(sv: Server, peers: set<int>, m: Msg)
    requires forall fd | fd in sv.wire :: AllReady(Msgs(sv.wire[fd]))
    requires Ready(m)
    ensures var sv' := OnMessage(sv, peers, m); forall fd | fd in sv'.wire :: AllReady(Msgs(sv'.wire[fd]))
  {
    var t := Apply(sv.tables, Effect(m));
    SendReady(sv.(tables := t), peers, Update(m, t));
  }

  lemma CommandReady(s: State, raw: seq<char>, stored: bool)
    requires WiresReady(s) && s.server.status == UP && Spares(Command(raw, stored))
    ensures WiresReady(Next(s, Command(raw, stored)))
  {
    CommandValid(raw, stored);
    var (o, m) := ParseLine(raw, stored);
    if o == Accepted {
      MessageReady(s.server, s.clients.Keys, m);
    } else if o == Flushed {
      MessageReady(s.server.(tables := EMPTY), s.clients.Keys, m);
    }
  }

  lemma StepReady(s: State, step: Step)
    requires Inv(s) && WiresReady(s) && Enabled(s, step) && Spares(step)
    ensures WiresReady(Next(s, step))
  {
    match step
    case Connect(fd, pid) =>
      WelcomeHarmless(s.server.tables);
      HarmlessInv(Welcome(s.server.tables), UP);
    case Command(raw, stored) => CommandReady(s, raw, stored);
    case Deliver(fd) => TailInv(s.server.wire[fd], s.server.status);
    case Interrupt(m) => SendReady(s.server, s.clients.Keys, Farewell(m, s.server.tables));
    case _ =>
  }

  lemma {:induction false} RunReadyFrom(s: State, steps: seq<Step>)
    requires Inv(s) && WiresReady(s) && Legal(s, steps) && forall step | step in steps :: Spares(step)
    ensures WiresReady(After(s, steps))
    decreases |steps|
  {
    if steps != [] {
      StepInv(s, steps[0]);
      StepReady(s, steps[0]);
      RunReadyFrom(Next(s, steps[0]), steps[1..]);
    }
  }

  /** On every run on which no line has an interface name that fills its field, no client is
      sent a string that does not end. */
  lemma RunReady(conn: int, steps: seq<Step>)
    requires conn > 0 && Legal(Init(conn), steps) && forall step | step in steps :: Spares(step)
    ensures WiresReady(After(Init(conn), steps))
  {
    InitInv(conn);
    RunReadyFrom(Init(conn), steps);
  }
}
