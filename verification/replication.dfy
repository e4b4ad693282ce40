/** Replication: what is under way to a client brings its tables to the server's. */
module Replication {
  import opened CString
  import opened Message
  import opened Table
  import opened Slots
  import opened Snapshot
  import opened Protocol

  // ----- A new client -----

  lemma MsgsAppend(a: seq<Sent>, b: seq<Sent>)
    ensures Msgs(a + b) == Msgs(a) + Msgs(b)
  {
  }

  lemma PhaseMsgs(ms: seq<Msg>, during: int, atEnd: int, t: Tables)
    requires ms != []
    ensures Msgs(Phase(ms, during, atEnd, t)) == ms
  {
    assert ms == ms[..|ms| - 1] + [ms[|ms| - 1]];
  }

  /** The two phases replayed by a client that starts with nothing: the routing table
      comes out right exactly when it is widening, the MAC list always. */
  lemma WelcomeReplays(t: Tables)
    requires ValidTables(t)
    ensures var rs := RouteStream(t.rt, BLANK);
            var t1, t2 := Replay(EMPTY, rs), Replay(EMPTY, Msgs(Welcome(t)));
            && (t1.rt == t.rt <==> Widening(t.rt)) && t1.ml == []
            && t2 == t1.(ml := t.ml)
            && Msgs(Welcome(t)) == rs + MacStream(t.ml, rs[|t.rt|])
  {
    var rs := RouteStream(t.rt, BLANK);
    var ms := MacStream(t.ml, rs[|t.rt|]);
    RoutesExact(EMPTY, t.rt);
    BlankClean();
    RouteStreamReplays(EMPTY, t.rt, BLANK);
    MacStreamReplays(Replay(EMPTY, rs), t.ml, rs[|t.rt|]);
    assert [] + t.ml == t.ml;
    AddMacsUnique([], t.ml);
    ReplayAppend(EMPTY, rs, ms);
    PhaseMsgs(rs, WAIT, RT, t);
    PhaseMsgs(ms, RT, ML, t);
    MsgsAppend(Phase(rs, WAIT, RT, t), Phase(ms, RT, ML, t));
  }

  // ----- A flush -----

  predicate AddsRoute(m: Msg, dest: CStr, mask: nat) {
    var c := Effect(m);
    c.AddRoute? && c.route.dest == dest && c.route.mask == mask
  }

  /** The key is added and not deleted afterwards. */
  ghost predicate RouteStands(ms: seq<Msg>, dest: CStr, mask: nat) {
    exists i | 0 <= i < |ms| ::
      AddsRoute(ms[i], dest, mask) && forall j | i < j < |ms| :: Effect(ms[j]) != DropRoute(dest, mask)
  }

  ghost predicate MacStands(ms: seq<Msg>, mac: CStr) {
    exists i | 0 <= i < |ms| ::
      Effect(ms[i]) == AddMac(mac) && forall j | i < j < |ms| :: Effect(ms[j]) != DropMac(mac)
  }

  /** Every route added by the queue is deleted again later in it. */
  ghost predicate RoutesCancelled(ms: seq<Msg>) {
    forall i | 0 <= i < |ms| && Effect(ms[i]).AddRoute? ::
      var r := Effect(ms[i]).route;
      exists j | i < j < |ms| :: Effect(ms[j]) == DropRoute(r.dest, r.mask)
  }

  ghost predicate MacsCancelled(ms: seq<Msg>) {
    forall i | 0 <= i < |ms| && Effect(ms[i]).AddMac? ::
      exists j | i < j < |ms| :: Effect(ms[j]) == DropMac(Effect(ms[i]).mac)
  }

  ghost predicate Cancelled(ms: seq<Msg>) {
    RoutesCancelled(ms) && MacsCancelled(ms)
  }

  lemma {:induction false} ReplayUnique(t: Tables, ms: seq<Msg>)
    requires Unique(t)
    ensures Unique(Replay(t, ms))
    decreases |ms|
  {
    if ms != [] {
      ApplyUnique(t, Effect(ms[0]));
      ReplayUnique(Apply(t, Effect(ms[0])), ms[1..]);
    }
  }

  lemma ReplaySnoc(t: Tables, init: seq<Msg>, last: Msg)
    ensures Replay(t, init + [last]) == Apply(Replay(t, init), Effect(last))
  {
    ReplayAppend(t, init, [last]);
    ReplayOne(Replay(t, init), last);
  }

  lemma ReplayOne(t: Tables, m: Msg)
    ensures Replay(t, [m]) == Apply(t, Effect(m))
  {
  }

  lemma {:induction false} RouteStandsIff(ms: seq<Msg>, dest: CStr, mask: nat)
    ensures Lookup(Replay(EMPTY, ms).rt, dest, mask).Via? <==> RouteStands(ms, dest, mask)
    decreases |ms|
  {
    if ms != [] {
      var init, last := ms[..|ms| - 1], ms[|ms| - 1];
      assert ms == init + [last];
      RouteStandsIff(init, dest, mask);
      RouteStandsStep(init, last, dest, mask);
    }
  }

  lemma RouteStandsStep(init: seq<Msg>, last: Msg, dest: CStr, mask: nat)
    requires Lookup(Replay(EMPTY, init).rt, dest, mask).Via? <==> RouteStands(init, dest, mask)
    ensures Lookup(Replay(EMPTY, init + [last]).rt, dest, mask).Via? <==> RouteStands(init + [last], dest, mask)
  {
    ReplaySnoc(EMPTY, init, last);
    ReplayUnique(EMPTY, init);
    LookupAfter(Replay(EMPTY, init).rt, Effect(last), dest, mask);
    RouteStandsSnoc(init, last, dest, mask);
  }

  lemma RouteStandsSnoc(init: seq<Msg>, last: Msg, dest: CStr, mask: nat)
    ensures RouteStands(init + [last], dest, mask)
       <==> AddsRoute(last, dest, mask) || (RouteStands(init, dest, mask) && Effect(last) != DropRoute(dest, mask))
  {
    var ms := init + [last];
    assert ms[|init|] == last;
    if RouteStands(init, dest, mask) && Effect(last) != DropRoute(dest, mask) {
      var i :| 0 <= i < |init| && AddsRoute(init[i], dest, mask)
               && forall j | i < j < |init| :: Effect(init[j]) != DropRoute(dest, mask);
      assert AddsRoute(ms[i], dest, mask);
    }
    if RouteStands(ms, dest, mask) && !AddsRoute(last, dest, mask) {
      var i :| 0 <= i < |ms| && AddsRoute(ms[i], dest, mask)
               && forall j | i < j < |ms| :: Effect(ms[j]) != DropRoute(dest, mask);
      assert AddsRoute(init[i], dest, mask);
      assert forall j | i < j < |init| :: init[j] == ms[j];
    }
  }

  lemma {:induction false} MacStandsIff(ms: seq<Msg>, mac: CStr)
    ensures mac in Replay(EMPTY, ms).ml <==> MacStands(ms, mac)
    decreases |ms|
  {
    if ms != [] {
      var init, last := ms[..|ms| - 1], ms[|ms| - 1];
      assert ms == init + [last];
      MacStandsIff(init, mac);
      MacStandsStep(init, last, mac);
    }
  }

  lemma MacStandsStep(init: seq<Msg>, last: Msg, mac: CStr)
    requires mac in Replay(EMPTY, init).ml <==> MacStands(init, mac)
    ensures mac in Replay(EMPTY, init + [last]).ml <==> MacStands(init + [last], mac)
  {
    ReplaySnoc(EMPTY, init, last);
    ReplayUnique(EMPTY, init);
    MacInAfter(Replay(EMPTY, init).ml, Effect(last), mac);
    MacStandsSnoc(init, last, mac);
  }

  lemma MacInAfter(ml: seq<CStr>, c: Change, mac: CStr)
    requires UniqueMacs(ml)
    ensures mac in ApplyMl(ml, c) <==> c == AddMac(mac) || (mac in ml && c != DropMac(mac))
  {
    MacsAfter(ml, c);
    var ml' := ApplyMl(ml, c);
    if c.DropMac? && mac in ml && c.mac != mac {
      var i :| 0 <= i < |ml| && ml[i] == mac;
      var k := FindMac(ml, c.mac);
      assert k < |ml| ==> ml'[if i < k then i else i - 1] == mac;
    }
  }

  lemma MacStandsSnoc(init: seq<Msg>, last: Msg, mac: CStr)
    ensures MacStands(init + [last], mac)
       <==> Effect(last) == AddMac(mac) || (MacStands(init, mac) && Effect(last) != DropMac(mac))
  {
    var ms := init + [last];
    assert ms[|init|] == last;
    if MacStands(init, mac) && Effect(last) != DropMac(mac) {
      var i :| 0 <= i < |init| && Effect(init[i]) == AddMac(mac)
               && forall j | i < j < |init| :: Effect(init[j]) != DropMac(mac);
      assert Effect(ms[i]) == AddMac(mac);
    }
    if MacStands(ms, mac) && Effect(last) != AddMac(mac) {
      var i :| 0 <= i < |ms| && Effect(ms[i]) == AddMac(mac)
               && forall j | i < j < |ms| :: Effect(ms[j]) != DropMac(mac);
      assert Effect(init[i]) == AddMac(mac);
      assert forall j | i < j < |init| :: init[j] == ms[j];
    }
  }

  lemma RoutesCancelledExact(ms: seq<Msg>)
    ensures Replay(EMPTY, ms).rt == [] <==> RoutesCancelled(ms)
  {
    var rt := Replay(EMPTY, ms).rt;
    if RoutesCancelled(ms) && rt != [] {
      RouteStandsIff(ms, rt[0].dest, rt[0].mask);
    }
    if rt == [] {
      forall i | 0 <= i < |ms| && Effect(ms[i]).AddRoute?
        ensures var r := Effect(ms[i]).route;
                exists j | i < j < |ms| :: Effect(ms[j]) == DropRoute(r.dest, r.mask)
      {
        var r := Effect(ms[i]).route;
        RouteStandsIff(ms, r.dest, r.mask);
        assert AddsRoute(ms[i], r.dest, r.mask);
      }
    }
  }

  lemma MacsCancelledExact(ms: seq<Msg>)
    ensures Replay(EMPTY, ms).ml == [] <==> MacsCancelled(ms)
  {
    var ml := Replay(EMPTY, ms).ml;
    if MacsCancelled(ms) && ml != [] {
      MacStandsIff(ms, ml[0]);
    }
    if ml == [] {
      forall i | 0 <= i < |ms| && Effect(ms[i]).AddMac?
        ensures exists j | i < j < |ms| :: Effect(ms[j]) == DropMac(Effect(ms[i]).mac)
      {
        MacStandsIff(ms, Effect(ms[i]).mac);
      }
    }
  }

  /** A client that is emptied while messages are under way to it ends up empty exactly
      when every addition among them is cancelled. */
  lemma CancelledExact(ms: seq<Msg>)
    ensures Replay(EMPTY, ms) == EMPTY <==> Cancelled(ms)
  {
    RoutesCancelledExact(ms);
    MacsCancelledExact(ms);
  }

  /** The `i`-th message does not look at its interface name: it creates a route that
      stands by then, or updates one that does not. */
  ghost predicate NameUnread(ms: seq<Msg>, i: nat)
    requires i < |ms|
  {
    var r := RouteOf(ms[i].body);
    && (ms[i].op == CREATE ==> RouteStands(ms[..i], r.dest, r.mask))
    && (ms[i].op == UPDATE ==> !RouteStands(ms[..i], r.dest, r.mask))
  }

  /** No message of the queue looks at a name that does not end. */
  ghost predicate NamesUnread(ms: seq<Msg>) {
    forall i | 0 <= i < |ms| && Unended(ms[i]) :: NameUnread(ms, i)
  }

  /** That is what it takes for a client that is emptied to live through the queue. */
  lemma {:induction false} SmoothExact(ms: seq<Msg>)
    ensures Smooth(EMPTY, ms) <==> NamesUnread(ms)
    decreases |ms|
  {
    if ms != [] {
      var init, last := ms[..|ms| - 1], ms[|ms| - 1];
      assert ms == init + [last];
      SmoothExact(init);
      SmoothSnoc(EMPTY, init, last);
      NamesUnreadSnoc(init, last);
      var r := RouteOf(last.body);
      RouteStandsIff(init, r.dest, r.mask);
    }
  }

  lemma SmoothSnoc(t: Tables, init: seq<Msg>, last: Msg)
    ensures Smooth(t, init + [last]) <==> Smooth(t, init) && Defined(Replay(t, init), last)
  {
    SmoothAppend(t, init, [last]);
    assert Smooth(Replay(t, init), [last]) <==> Defined(Replay(t, init), last);
  }

  lemma NamesUnreadSnoc(init: seq<Msg>, last: Msg)
    ensures NamesUnread(init + [last])
       <==> NamesUnread(init) && (Unended(last) ==> NameUnread(init + [last], |init|))
  {
    var ms := init + [last];
    forall i | 0 <= i < |init| ensures NameUnread(ms, i) <==> NameUnread(init, i) {
      assert ms[..i] == init[..i];
    }
    forall i | 0 <= i < |init| ensures ms[i] == init[i] {
    }
  }

  // ----- The invariant -----

  ghost predicate Replicated(s: State) {
    forall fd | fd in s.clients && fd in Clients(s.server.slots) :: InStep(s, fd)
  }

  /** As ordered lists: what is still to be delivered leads to exactly the server's tables,
      and the client lives through it. */
  ghost predicate InStep(s: State, fd: int) {
    && fd in s.clients && fd in s.server.wire
    && Smooth(s.clients[fd].tables, Msgs(s.server.wire[fd]))
    && Replay(s.clients[fd].tables, Msgs(s.server.wire[fd])) == s.server.tables
  }

  /** The server has not crashed, and its registered clients follow it. */
  ghost predicate InService(s: State) {
    s.server.status != CRASHED && Replicated(s)
  }

  /** No slot holds a client that has closed its socket. */
  ghost predicate NoneGone(s: State) {
    Clients(s.server.slots) <= s.clients.Keys
  }

  /** The guards under which the steps keep the service up and the replicas in step. */
  ghost predicate Sound(s: State, step: Step) {
    match step
    case Connect(fd, pid) => Full(s.server.slots) || Widening(s.server.tables.rt)
    case Lost(fd, pid) => false
    case Command(raw, stored) => CommandSound(s, ParseLine(raw, stored).0, ParseLine(raw, stored).1)
    case Interrupt(m) => NoneGone(s)
    case _ => true
  }

  ghost predicate CommandSound(s: State, o: Outcome, m: Msg) {
    match o
    case Accepted => NoneGone(s) && Defined(s.server.tables, m)
    case Flushed => NoneGone(s) && FlushSound(s)
    case Rejected => true
    case Undefined => false
  }

  /** If the signal reaches it, every addition still under way to it is cancelled, and
      nothing under way kills it; if not, there was nothing to flush. */
  ghost predicate FlushSoundFor(s: State, fd: int)
    requires fd in s.clients
  {
    if s.clients[fd].pid in Members(s.server.pids)
    then fd in s.server.wire && Cancelled(Msgs(s.server.wire[fd])) && NamesUnread(Msgs(s.server.wire[fd]))
    else s.server.tables == EMPTY
  }

  /** So it must be for each registered client. */
  ghost predicate FlushSound(s: State) {
    forall fd | fd in s.clients && fd in Clients(s.server.slots) :: FlushSoundFor(s, fd)
  }

  /** One more packet to a client. */
  lemma Appended(t: Tables, w: seq<Sent>, s: Sent)
    ensures Replay(t, Msgs(w + [s])) == Apply(Replay(t, Msgs(w)), Effect(s.packet.msg))
    ensures Smooth(t, Msgs(w + [s])) <==> Smooth(t, Msgs(w)) && Defined(Replay(t, Msgs(w)), s.packet.msg)
  {
    MsgsAppend(w, [s]);
    assert Msgs([s]) == [s.packet.msg];
    ReplaySnoc(t, Msgs(w), s.packet.msg);
    SmoothSnoc(t, Msgs(w), s.packet.msg);
  }

  /** A new client lives through its welcome, and has the server's tables behind it
      exactly when the routing table is widening. */
  lemma WelcomeLeads(t: Tables)
    requires ValidTables(t)
    ensures Smooth(EMPTY, Msgs(Welcome(t)))
    ensures Replay(EMPTY, Msgs(Welcome(t))) == t <==> Widening(t.rt)
  {
    WelcomeReplays(t);
    WelcomeHarmless(t);
    ReadySmooth(EMPTY, Msgs(Welcome(t)));
  }

  lemma ConnectReplicates(s: State, fd: int, pid: int)
    requires Inv(s) && InService(s) && Enabled(s, Connect(fd, pid))
    ensures InService(Next(s, Connect(fd, pid))) <==> Sound(s, Connect(fd, pid))
  {
    var s' := Next(s, Connect(fd, pid));
    AddClient(s.server.slots, s.server.conn, fd);
    WelcomeLeads(s.server.tables);
    forall g | g in s'.clients && g in Clients(s'.server.slots) && g != fd ensures InStep(s', g) {
      assert InStep(s, g);
    }
    assert fd in Clients(s'.server.slots) <==> !Full(s.server.slots);
    assert InStep(s', fd) <==> Widening(s.server.tables.rt);
  }

  /** A broadcast keeps the replicas that were in step before it in step, if the server gets
      to it and through it. */
  lemma MessageReplicates(s: State, m: Msg)
    requires Inv(s) && InService(s) && s.server.status == UP
    ensures InService(State(OnMessage(s.server, s.clients.Keys, m), s.clients))
       <==> NoneGone(s) && Defined(s.server.tables, m)
  {
    var t := Apply(s.server.tables, Effect(m));
    var s' := State(OnMessage(s.server, s.clients.Keys, m), s.clients);
    SurvivesIff(s.server.slots, s.clients.Keys);
    if NoneGone(s) && Defined(s.server.tables, m) {
      forall fd | fd in s.clients && fd in Clients(s.server.slots) ensures InStep(s', fd) {
        assert InStep(s, fd);
        Appended(s.clients[fd].tables, s.server.wire[fd], Update(m, t));
      }
    }
  }

  function AfterFlush(s: State, m: Msg): State {
    var e := Emptied(s);
    State(OnMessage(e.server, e.clients.Keys, m), e.clients)
  }

  lemma FlushOne(s: State, m: Msg, fd: int)
    requires m.op == NONE && fd in s.clients && fd in Reached(s.server.slots, s.clients.Keys) && InStep(s, fd)
    ensures InStep(AfterFlush(s, m), fd) <==> FlushSoundFor(s, fd)
  {
    var s' := AfterFlush(s, m);
    assert Effect(m) == Nothing;
    assert s'.server.tables == EMPTY;
    var p := Update(m, EMPTY);
    var w := s.server.wire[fd];
    assert Emptied(s).clients.Keys == s.clients.Keys;
    assert s'.server.wire[fd] == w + [p];
    Appended(s'.clients[fd].tables, w, p);
    CancelledExact(Msgs(w));
    SmoothExact(Msgs(w));
  }

  lemma FlushReplicates(s: State, m: Msg)
    requires Inv(s) && InService(s) && s.server.status == UP && m.op == NONE
    ensures InService(AfterFlush(s, m)) <==> NoneGone(s) && FlushSound(s)
  {
    var s' := AfterFlush(s, m);
    assert Emptied(s).clients.Keys == s.clients.Keys;
    SurvivesIff(s.server.slots, s.clients.Keys);
    if NoneGone(s) {
      forall fd | fd in s.clients && fd in Clients(s.server.slots)
        ensures InStep(s', fd) <==> FlushSoundFor(s, fd)
      {
        assert InStep(s, fd);
        FlushOne(s, m, fd);
      }
    }
  }

  lemma CommandReplicates(s: State, raw: seq<char>, stored: bool)
    requires Inv(s) && InService(s) && s.server.status == UP
    ensures InService(Next(s, Command(raw, stored))) <==> Sound(s, Command(raw, stored))
  {
    var (o, m) := ParseLine(raw, stored);
    match o
    case Accepted => MessageReplicates(s, m);
    case Flushed =>
      CommandValid(raw, stored);
      FlushReplicates(s, m);
      FlushedNext(s, raw, stored);
    case Rejected =>
    case Undefined =>
  }

  lemma FlushedNext(s: State, raw: seq<char>, stored: bool)
    requires s.server.status == UP && ParseLine(raw, stored).0 == Flushed
    ensures Next(s, Command(raw, stored)) == AfterFlush(s, ParseLine(raw, stored).1)
  {
    assert Emptied(s).clients.Keys == s.clients.Keys;
  }

  lemma DeliverReplicates(s: State, fd: int)
    requires Inv(s) && InService(s) && Enabled(s, Deliver(fd))
    ensures InService(Next(s, Deliver(fd)))
  {
    var s' := Next(s, Deliver(fd));
    var w := s.server.wire[fd];
    assert Msgs(w)[1..] == Msgs(w[1..]);
    forall g | g in s'.clients && g in Clients(s'.server.slots) ensures InStep(s', g) {
      assert InStep(s, g);
    }
  }

  /** Only clients without a slot meet the end of file of a server that has stopped. */
  lemma EndOfFileReplicates(s: State, fd: int)
    requires Inv(s) && InService(s) && Enabled(s, EndOfFile(fd))
    ensures InService(Next(s, EndOfFile(fd)))
  {
    var s' := Next(s, EndOfFile(fd));
    forall g | g in s'.clients && g in Clients(s'.server.slots) ensures InStep(s', g) {
      assert InStep(s, g);
    }
  }

  lemma DoneReplicates(s: State, fd: int)
    requires Inv(s) && InService(s) && Enabled(s, Done(fd))
    ensures InService(Next(s, Done(fd)))
  {
    var s' := Next(s, Done(fd));
    DoneIsClient(s, fd);
    RemoveClient(s.server.slots, s.server.conn, fd);
    forall g | g in s'.clients && g in Clients(s'.server.slots) ensures InStep(s', g) {
      assert InStep(s, g);
    }
  }

  lemma InterruptReplicates(s: State, m: Msg)
    requires Inv(s) && InService(s) && Enabled(s, Interrupt(m))
    ensures InService(Next(s, Interrupt(m))) <==> NoneGone(s)
  {
    var s' := Next(s, Interrupt(m));
    InterruptSlots(s);
    SurvivesIff(s.server.slots, s.clients.Keys);
    if NoneGone(s) {
      forall g | g in s'.clients && g in Clients(s'.server.slots) ensures InStep(s', g) {
        assert InStep(s, g);
        FarewellInStep(s, m, g);
      }
    }
  }

  lemma FarewellInStep(s: State, m: Msg, fd: int)
    requires Enabled(s, Interrupt(m)) && InStep(s, fd)
    ensures InStep(Next(s, Interrupt(m)), fd)
  {
    Appended(s.clients[fd].tables, s.server.wire[fd], Farewell(m, s.server.tables));
  }

  lemma LeaveReplicates(s: State, fd: int)
    requires InService(s) && Enabled(s, Leave(fd))
    ensures InService(Next(s, Leave(fd)))
  {
    var s' := Next(s, Leave(fd));
    forall g | g in s'.clients && g in Clients(s'.server.slots) ensures InStep(s', g) {
      assert InStep(s, g);
    }
  }

  /** A step keeps the service up and the registered clients in step exactly when its
      guard holds. */
  lemma StepReplicates(s: State, step: Step)
    requires Inv(s) && InService(s) && Enabled(s, step)
    ensures InService(Next(s, step)) <==> Sound(s, step)
  {
    match step
    case Connect(fd, pid) => ConnectReplicates(s, fd, pid);
    case Lost(fd, pid) =>
    case Command(raw, stored) => CommandReplicates(s, raw, stored);
    case Deliver(fd) => DeliverReplicates(s, fd);
    case EndOfFile(fd) => EndOfFileReplicates(s, fd);
    case Leave(fd) => LeaveReplicates(s, fd);
    case Done(fd) => DoneReplicates(s, fd);
    case Interrupt(m) => InterruptReplicates(s, m);
  }
}
