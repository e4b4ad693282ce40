/** The end of the server: how it comes about, whom it is told, and what the others make
    of it. */
module Shutdown {
  import opened Address
  import opened Message
  import opened Table
  import opened Slots
  import opened Snapshot
  import opened Protocol
  import opened Replication
  import opened Runs
  import opened Flags

  // ----- How it comes about -----

  /** The words of a line whose interface name fills its field and is looked at: it creates
      a route that is not in the table, or updates one that is. */
  predicate Stumbles(rt: seq<Route>, ts: Words) {
    && Fills(ts) && AllDigits(ts[2])
    && var hop := Lookup(rt, ts[1], Value(ts[2]));
       if Verb(ts, 'C') then hop.Absent? else hop.Via?
  }

  lemma StumblesExact(t: Tables, ts: Words, stored: bool)
    requires Parse(ts, BLANK, false, stored).0 == Accepted
    ensures !Defined(t, Parse(ts, BLANK, false, stored).1) <==> Stumbles(t.rt, ts)
  {
    ParseByVerb(ts, BLANK, false, stored);
    ParseReady(ts, stored);
    if Fills(ts) {
      RouteParses(ts, if Verb(ts, 'C') then CREATE else UPDATE, stored);
    }
  }

  /** A line brings the server down exactly when C gives no meaning to parsing or to
      processing it, or when it leads to a broadcast and a registered client has gone. */
  lemma CommandCrashes(s: State, raw: seq<char>, stored: bool)
    requires Inv(s) && s.server.status == UP
    ensures var ts, o := WordsOf(Line(raw)), ParseLine(raw, stored).0;
            Next(s, Command(raw, stored)).server.status == CRASHED
            <==> || Breaks(ts)
                 || (o == Accepted && Stumbles(s.server.tables.rt, ts))
                 || ((o == Accepted || o == Flushed) && !NoneGone(s))
  {
    var (o, m) := ParseLine(raw, stored);
    BreaksExact(WordsOf(Line(raw)), BLANK, false, stored);
    if o == Accepted {
      StumblesExact(s.server.tables, WordsOf(Line(raw)), stored);
    }
    CommandValid(raw, stored);
    OutcomeCrashes(s.server, s.clients.Keys, o, m);
  }

  lemma OutcomeCrashes(sv: Server, peers: set<int>, o: Outcome, m: Msg)
    requires sv.status == UP && (o == Flushed ==> m.op == NONE)
    ensures OnOutcome(sv, peers, o, m).status == CRASHED
       <==> || o == Undefined
            || (o == Accepted && !Defined(sv.tables, m))
            || ((o == Accepted || o == Flushed) && !(Clients(sv.slots) <= peers))
  {
    SurvivesIff(sv.slots, peers);
  }

  /** SIGINT stops the server, unless a registered client has gone: then it crashes. */
  lemma InterruptStops(s: State, m: Msg)
    requires Inv(s) && Enabled(s, Interrupt(m))
    ensures Next(s, Interrupt(m)).server.status == if NoneGone(s) then STOPPED else CRASHED
  {
    SurvivesIff(s.server.slots, s.clients.Keys);
  }

  /** On every sound run, a registered client with nothing under way to it has the server's
      tables; and one that has left its loop has drained its channel, after a shutdown. */
  lemma ShutdownAgreement(conn: int, steps: seq<Step>, fd: int)
    requires conn > 0 && Legal(Init(conn), steps) && AlwaysSound(Init(conn), steps)
    ensures var s := After(Init(conn), steps);
            fd in s.clients && fd in Clients(s.server.slots) ==>
              && fd in s.server.wire
              && (s.server.wire[fd] == [] ==> s.clients[fd].tables == s.server.tables)
              && (!s.clients[fd].running ==> s.server.status == STOPPED && s.server.wire[fd] == [])
  {
    SoundEnd(conn, steps);
    var s := After(Init(conn), steps);
    if fd in s.clients && fd in Clients(s.server.slots) {
      assert InStep(s, fd);
    }
  }

  // ----- What becomes of a client -----

  /** The packet that stops this client has been written to it. */
  predicate TellsOf(s: State, last: Step, fd: int) {
    last.Interrupt? && fd in Reached(s.server.slots, s.clients.Keys)
  }

  /** On its way to the server's tables and to the packet that stops it. */
  ghost predicate Saved(s: State, fd: int) {
    fd in s.clients ==> InStep(s, fd) && (s.clients[fd].running ==> Told(s.server.wire[fd]))
  }

  /** Nothing under way stops the client. */
  ghost predicate GoesOn(w: seq<Sent>) {
    forall i | 0 <= i < |w| :: w[i].packet.loop != 0
  }

  /** On its way to an end of file, or behind it (`seen`). */
  ghost predicate Doomed(s: State, fd: int, seen: bool) {
    fd in s.clients ==>
      && s.clients[fd].running && fd in s.server.wire && GoesOn(s.server.wire[fd])
      && (seen ==> HasBlank(s.clients[fd].tables) && s.server.wire[fd] == [])
  }

  /** The route that a client reads out of an end of file. */
  predicate HasBlank(t: Tables) {
    Lookup(t.rt, "", 0).Via?
  }

  lemma BlankIsInvalid(t: Tables)
    requires HasBlank(t)
    ensures !ValidTables(t)
  {
    var r := t.rt[FindRoute(t.rt, "", 0)];
    assert r in t.rt;
    if IsIp(r.dest) {
      IpShape(r.dest);
    }
  }

  lemma EndAddsBlank(c: Client)
    requires Unique(c.tables)
    ensures HasBlank(ReadEnd(c).tables)
  {
    BlankClean();
    LookupAfter(c.tables.rt, Effect(BLANK), "", 0);
  }

  lemma SavedStep(s: State, step: Step, fd: int)
    requires Inv(s) && s.server.status != UP && Enabled(s, step) && Saved(s, fd)
    ensures Saved(Next(s, step), fd) && step != EndOfFile(fd)
    ensures Next(s, step).server.tables == s.server.tables && Next(s, step).server.status != UP
  {
    if step == Deliver(fd) {
      var w := s.server.wire[fd];
      assert Msgs(w)[1..] == Msgs(w[1..]);
    }
  }

  lemma DoomedStep(s: State, step: Step, fd: int, seen: bool)
    requires Inv(s) && s.server.status != UP && Enabled(s, step) && Doomed(s, fd, seen)
    ensures Doomed(Next(s, step), fd, seen || step == EndOfFile(fd))
    ensures Next(s, step).server.tables == s.server.tables && Next(s, step).server.status != UP
  {
    if step == EndOfFile(fd) {
      EndAddsBlank(s.clients[fd]);
    }
  }

  lemma {:induction false} SavedRun(s: State, more: seq<Step>, fd: int)
    requires Inv(s) && s.server.status != UP && Legal(s, more) && Saved(s, fd)
    ensures var e := After(s, more); Inv(e) && Saved(e, fd) && e.server.tables == s.server.tables
    ensures EndOfFile(fd) !in more
    decreases |more|
  {
    if more != [] {
      StepInv(s, more[0]);
      SavedStep(s, more[0], fd);
      SavedRun(Next(s, more[0]), more[1..], fd);
    }
  }

  lemma {:induction false} DoomedRun(s: State, more: seq<Step>, fd: int, seen: bool)
    requires Inv(s) && s.server.status != UP && Legal(s, more) && Doomed(s, fd, seen)
    ensures var e := After(s, more);
            Inv(e) && Doomed(e, fd, seen || EndOfFile(fd) in more) && e.server.tables == s.server.tables
    decreases |more|
  {
    if more != [] {
      StepInv(s, more[0]);
      DoomedStep(s, more[0], fd, seen);
      DoomedRun(Next(s, more[0]), more[1..], fd, seen || more[0] == EndOfFile(fd));
    }
  }

  /** The step by which the server goes down decides. */
  lemma Decided(s: State, last: Step, fd: int)
    requires Inv(s) && InService(s) && Enabled(s, last) && fd in s.clients
    requires s.server.status == UP && Next(s, last).server.status != UP
    ensures if TellsOf(s, last, fd) then Saved(Next(s, last), fd) else Doomed(Next(s, last), fd, false)
  {
    ReachedAreClients(s.server.slots, s.clients.Keys);
    if TellsOf(s, last, fd) {
      assert InStep(s, fd);
      FarewellInStep(s, last.m, fd);
    } else {
      DecidedAgainst(s, last, fd);
    }
  }

  lemma DecidedAgainst(s: State, last: Step, fd: int)
    requires Inv(s) && Enabled(s, last) && fd in s.clients && !TellsOf(s, last, fd)
    requires s.server.status == UP && Next(s, last).server.status != UP
    ensures Doomed(Next(s, last), fd, false)
  {
    var w, sv := s.server.wire[fd], s.server;
    assert ClientInv(s.clients[fd], UP, w) && WireInv(UP, w);
    assert GoesOn(w);
    match last
    case Command(raw, stored) =>
      var (o, m) := ParseLine(raw, stored);
      OutcomeGoesOn(sv, s.clients.Keys, o, m, fd);
    case Interrupt(m) => SendGoesOn(sv, s.clients.Keys, Farewell(m, sv.tables), fd);
    case _ =>
  }

  lemma OutcomeGoesOn(sv: Server, peers: set<int>, o: Outcome, m: Msg, fd: int)
    requires fd in sv.wire && GoesOn(sv.wire[fd])
    ensures fd in OnOutcome(sv, peers, o, m).wire && GoesOn(OnOutcome(sv, peers, o, m).wire[fd])
  {
    var t := Apply(sv.tables, Effect(m));
    SendGoesOn(sv.(tables := t), peers, Update(m, t), fd);
    t := Apply(EMPTY, Effect(m));
    SendGoesOn(sv.(tables := t), peers, Update(m, t), fd);
  }

  lemma SendGoesOn(sv: Server, peers: set<int>, p: Sent, fd: int)
    requires fd in sv.wire && GoesOn(sv.wire[fd]) && (fd in Reached(sv.slots, peers) ==> p.packet.loop != 0)
    ensures fd in Send(sv, peers, p).wire && GoesOn(Send(sv, peers, p).wire[fd])
  {
  }

  /** A client has come to an end: it has stopped, or it has read the end of file. */
  predicate Ended(e: State, more: seq<Step>, fd: int) {
    fd in e.clients && (!e.clients[fd].running || EndOfFile(fd) in more)
  }

  /** The server goes down after a sound run, by whatever step, and anything that can still
      happen happens. A client that comes to an end has kept the server's tables if and only
      if the packet that stops it was written to it; and otherwise it never stops. */
  lemma KeepsIff(conn: int, steps: seq<Step>, last: Step, more: seq<Step>, fd: int)
    requires conn > 0 && Legal(Init(conn), steps) && AlwaysSound(Init(conn), steps)
    requires var s := After(Init(conn), steps);
             && s.server.status == UP && Enabled(s, last) && Next(s, last).server.status != UP
             && Legal(Next(s, last), more) && fd in s.clients
             && Ended(After(Next(s, last), more), more, fd)
    ensures var s := After(Init(conn), steps);
            var s1 := Next(s, last);
            var e := After(s1, more);
            && e.server.tables == s1.server.tables
            && (e.clients[fd].tables == e.server.tables <==> TellsOf(s, last, fd))
            && (!e.clients[fd].running <==> TellsOf(s, last, fd))
  {
    SoundEnd(conn, steps);
    var s := After(Init(conn), steps);
    var s1 := Next(s, last);
    var e := After(s1, more);
    StepInv(s, last);
    Decided(s, last, fd);
    if TellsOf(s, last, fd) {
      SavedRun(s1, more, fd);
      assert ClientInv(e.clients[fd], e.server.status, e.server.wire[fd]) && InStep(e, fd);
    } else {
      DoomedRun(s1, more, fd, false);
      BlankIsInvalid(e.clients[fd].tables);
    }
  }

  // ----- And it can come to an end -----

  /** Everything under way to a client, and the end of file if that does not stop it. */
  function Exhaust(fd: int, w: seq<Sent>): seq<Step> {
    Deliveries(fd, |w|) + if Told(w) then [] else [EndOfFile(fd)]
  }

  lemma ExhaustStep(fd: int, w: seq<Sent>)
    requires w != []
    ensures Exhaust(fd, w)[0] == Deliver(fd)
    ensures |w| > 1 || !Told(w) ==> Exhaust(fd, w)[1..] == Exhaust(fd, w[1..])
    ensures |w| == 1 && Told(w) ==> Exhaust(fd, w)[1..] == []
  {
  }

  /** A client reads on to its end, unless something on the way kills it. */
  lemma Exhausts(s: State, fd: int)
    requires Inv(s) && s.server.status != UP && Reading(s, fd)
    ensures if Smooth(s.clients[fd].tables, Msgs(s.server.wire[fd]))
            then var ds := Exhaust(fd, s.server.wire[fd]); Legal(s, ds) && Ended(After(s, ds), ds, fd)
            else exists n: nat :: Dies(s, fd, n)
  {
    if Smooth(s.clients[fd].tables, Msgs(s.server.wire[fd])) { ReadsToEnd(s, fd); } else { IsKilled(s, fd); }
  }

  lemma {:induction false} ReadsToEnd(s: State, fd: int)
    requires Inv(s) && s.server.status != UP && Reading(s, fd)
    requires Smooth(s.clients[fd].tables, Msgs(s.server.wire[fd]))
    ensures var ds := Exhaust(fd, s.server.wire[fd]); Legal(s, ds) && Ended(After(s, ds), ds, fd)
    decreases |s.server.wire[fd]|
  {
    var w := s.server.wire[fd];
    if w == [] {
      assert Exhaust(fd, w) == [EndOfFile(fd)];
      assert [EndOfFile(fd)][1..] == [];
    } else {
      ExhaustStep(fd, w);
      StepInv(s, Deliver(fd));
      assert Msgs(w)[1..] == Msgs(w[1..]);
      if |w| > 1 || !Told(w) {
        ExhaustsNext(s, fd);
        ReadsToEnd(Next(s, Deliver(fd)), fd);
      }
    }
  }

  lemma {:induction false} IsKilled(s: State, fd: int)
    requires Inv(s) && s.server.status != UP && Reading(s, fd)
    requires !Smooth(s.clients[fd].tables, Msgs(s.server.wire[fd]))
    ensures exists n: nat :: Dies(s, fd, n)
    decreases |s.server.wire[fd]|
  {
    var w := s.server.wire[fd];
    var s1 := Next(s, Deliver(fd));
    if fd !in s1.clients {
      assert Dies(s, fd, 0);
    } else {
      StepInv(s, Deliver(fd));
      assert Msgs(w)[1..] == Msgs(w[1..]);
      assert |w| > 1;
      ExhaustsNext(s, fd);
      IsKilled(s1, fd);
      var n: nat :| Dies(s1, fd, n);
      Later(s, fd, n);
    }
  }

  lemma ExhaustsNext(s: State, fd: int)
    requires Inv(s) && s.server.status != UP && Enabled(s, Deliver(fd))
    requires fd in Next(s, Deliver(fd)).clients && (|s.server.wire[fd]| > 1 || !Told(s.server.wire[fd]))
    ensures Reading(Next(s, Deliver(fd)), fd)
  {
    assert WireInv(s.server.status, s.server.wire[fd]);
  }

  lemma InServiceSmooth(s: State, fd: int)
    requires Inv(s) && InService(s) && fd in s.clients
    ensures fd in s.server.wire && Smooth(s.clients[fd].tables, Msgs(s.server.wire[fd]))
  {
    if fd in Clients(s.server.slots) {
      assert InStep(s, fd);
    } else {
      ReadySmooth(s.clients[fd].tables, Msgs(s.server.wire[fd]));
    }
  }

  /** Whoever follows the server lives through what is under way to it, and through its
      welcome whoever does not. */
  lemma InterruptSmooth(s: State, m: Msg, fd: int)
    requires Inv(s) && InService(s) && Enabled(s, Interrupt(m)) && fd in s.clients
    ensures var s1 := Next(s, Interrupt(m)); Smooth(s1.clients[fd].tables, Msgs(s1.server.wire[fd]))
  {
    InServiceSmooth(s, fd);
    var w, p := s.server.wire[fd], Farewell(m, s.server.tables);
    assert Next(s, Interrupt(m)).server.wire[fd] in {w, w + [p]};
    Appended(s.clients[fd].tables, s.server.wire[fd], Farewell(m, s.server.tables));
  }

  /** After an interrupt on a sound run every client can read on to its end, and it stops
      with the tables the server had if and only if the loop over the slots got to it. What
      the uninitialized message holds makes no difference. */
  lemma ShutdownDrains(conn: int, steps: seq<Step>, m: Msg, fd: int)
    requires conn > 0 && Legal(Init(conn), steps) && AlwaysSound(Init(conn), steps)
    requires Enabled(After(Init(conn), steps), Interrupt(m))
    requires fd in After(Init(conn), steps).clients
    ensures var s := After(Init(conn), steps);
            var s1 := Next(s, Interrupt(m));
            && fd in s1.server.wire
            && var ds := Exhaust(fd, s1.server.wire[fd]);
            && Legal(s1, ds)
            && var e := After(s1, ds);
               && fd in e.clients
               && (!e.clients[fd].running <==> fd in Reached(s.server.slots, s.clients.Keys))
               && (e.clients[fd].tables == s.server.tables <==> fd in Reached(s.server.slots, s.clients.Keys))
               && (NoneGone(s) && fd in Clients(s.server.slots) ==> !e.clients[fd].running)
  {
    SoundEnd(conn, steps);
    var s := After(Init(conn), steps);
    var s1 := Next(s, Interrupt(m));
    StepInv(s, Interrupt(m));
    InterruptStops(s, m);
    assert ClientInv(s.clients[fd], UP, s.server.wire[fd]);
    InterruptSmooth(s, m, fd);
    Exhausts(s1, fd);
    KeepsIff(conn, steps, Interrupt(m), Exhaust(fd, s1.server.wire[fd]), fd);
    SurvivesIff(s.server.slots, s.clients.Keys);
  }
}
