/** What the steps do, said in terms of what is typed and of what arrives, and without the
    functions that they are made of. Flags are the numbers of the repository's header:
    0 WAIT, 1 RT, 2 ML. */
module Steps {
  import opened CString
  import opened Address
  import opened Message
  import opened Table
  import opened Slots
  import opened Snapshot
  import opened Protocol
  import opened Replication
  import opened Shutdown

  /** A channel has gained one packet, with this effect and these flags. */
  ghost predicate GainsOne(w: seq<Sent>, w': seq<Sent>, c: Change, synchronized: int, loop: int, t: Tables) {
    && |w'| == |w| + 1 && w'[..|w|] == w
    && var p := w'[|w|];
       Effect(p.packet.msg) == c && p.packet.synchronized == synchronized && p.packet.loop == loop && p.stamp == t
  }

  /** Every client that a loop over the slots gets to has gained such a packet, nobody else
      has, and the server is alive if the loop gets through. */
  ghost predicate Announced(s: State, s': State, c: Change, synchronized: int, loop: int) {
    var sv, sv' := s.server, s'.server;
    && sv'.wire.Keys == sv.wire.Keys
    && (forall fd | fd in sv.wire ::
          if GetsThrough(sv.slots, s.clients.Keys, fd)
          then GainsOne(sv.wire[fd], sv'.wire[fd], c, synchronized, loop, sv'.tables)
          else sv'.wire[fd] == sv.wire[fd])
    && (sv'.status != CRASHED <==> NoneGone(s))
  }

  lemma SendAnnounces(s: State, t: Tables, p: Sent, s': State)
    requires Inv(s) && s.server.status == UP && p.stamp == t
    requires s'.server == Send(s.server.(tables := t), s.clients.Keys, p)
    ensures Announced(s, s', Effect(p.packet.msg), p.packet.synchronized, p.packet.loop)
  {
    var sv := s.server;
    SurvivesIff(sv.slots, s.clients.Keys);
    forall fd | fd in sv.wire
      ensures if GetsThrough(sv.slots, s.clients.Keys, fd)
              then GainsOne(sv.wire[fd], s'.server.wire[fd], Effect(p.packet.msg), p.packet.synchronized,
                            p.packet.loop, s'.server.tables)
              else s'.server.wire[fd] == sv.wire[fd]
    {
      ReachedExact(sv.slots, s.clients.Keys, fd);
    }
  }

  // ----- A line -----

  /** The words after the verb are about a MAC address. */
  predicate AboutMacs(ts: Words) {
    (Verb(ts, 'C') || Verb(ts, 'U') || Verb(ts, 'D')) && |ts| > 1 && IsMac(ts[1])
  }

  lemma AcceptedTable(ts: Words, stored: bool)
    ensures var (o, m) := Parse(ts, BLANK, false, stored);
            o == Accepted ==> (m.l == L2 <==> AboutMacs(ts))
  {
    ParseByVerb(ts, BLANK, false, stored);
    if |ts| > 1 {
      IpIsNotMac(ts[1]);
      TargetTable(ts, CREATE, stored);
      TargetTable(ts, UPDATE, stored);
      TargetTable(ts, DELETE, stored);
    }
  }

  lemma TargetTable(ts: Words, op: OpCode, stored: bool)
    requires |ts| > 1
    ensures var (o, m) := ParseTarget(ts, BLANK.(op := op), false, stored);
            o == Accepted ==> if IsIp(ts[1]) then m.l == L3 else IsMac(ts[1]) && m.l == L2
  {
    if IsIp(ts[1]) {
      RouteParses(ts, op, stored);
    }
  }

  /** Neither slots nor process ids change, and no client comes or goes. */
  ghost predicate SamePeople(s: State, s': State) {
    && s'.server.slots == s.server.slots && s'.server.pids == s.server.pids && s'.server.conn == s.server.conn
    && s'.clients.Keys == s.clients.Keys
  }

  /** A line with a meaning `c` changes the server's table accordingly and announces that,
      with the flag of the table it is about; or it cannot be processed. */
  lemma LineMeans(s: State, raw: seq<char>, stored: bool, c: Change)
    requires Inv(s) && s.server.status == UP && Denotes(WordsOf(Line(raw)), stored, c)
    ensures var ts, s' := WordsOf(Line(raw)), Next(s, Command(raw, stored));
            && SamePeople(s, s') && s'.clients == s.clients
            && if Stumbles(s.server.tables.rt, ts) then s'.server == s.server.(status := CRASHED)
               else && s'.server.tables == Apply(s.server.tables, c)
                    && Announced(s, s', c, if AboutMacs(ts) then 2 else 1, 1)
  {
    var ts := WordsOf(Line(raw));
    var m := Parse(ts, BLANK, false, stored).1;
    ParseMeaning(ts, stored, c);
    StumblesExact(s.server.tables, ts, stored);
    AcceptedTable(ts, stored);
    MessageAnnounces(s, m, Next(s, Command(raw, stored)));
  }

  lemma MessageAnnounces(s: State, m: Msg, s': State)
    requires Inv(s) && s.server.status == UP && s'.server == OnMessage(s.server, s.clients.Keys, m)
    ensures if Defined(s.server.tables, m)
            then && s'.server.tables == Apply(s.server.tables, Effect(m))
                 && Announced(s, s', Effect(m), if m.l == L2 then 2 else 1, 1)
            else s'.server == s.server.(status := CRASHED)
  {
    if Defined(s.server.tables, m) {
      var t := Apply(s.server.tables, Effect(m));
      SendAnnounces(s, t, Update(m, t), s');
    }
  }

  /** A route changes with the flag 1, an address with the flag 2. */
  lemma MeaningTable(ts: Words, stored: bool, c: Change)
    requires Denotes(ts, stored, c)
    ensures c.AddRoute? || c.SetRoute? || c.DropRoute? ==> !AboutMacs(ts)
    ensures c.AddMac? || c.DropMac? ==> AboutMacs(ts)
  {
    if |ts| > 1 {
      IpIsNotMac(ts[1]);
    }
  }

  /** FLUSH empties the server's tables and those of the clients whose process is recorded,
      and announces an empty routing table. */
  lemma LineFlushes(s: State, raw: seq<char>, stored: bool)
    requires Inv(s) && s.server.status == UP && Verb(WordsOf(Line(raw)), 'F')
    ensures var s' := Next(s, Command(raw, stored));
            && SamePeople(s, s') && s'.server.tables == EMPTY && Announced(s, s', Nothing, 1, 1)
            && forall fd | fd in s.clients ::
                 s'.clients[fd] == if s.clients[fd].pid in s.server.pids && s.clients[fd].pid != -1
                                   then s.clients[fd].(tables := EMPTY) else s.clients[fd]
  {
    var ts := WordsOf(Line(raw));
    ParseByVerb(ts, BLANK, false, stored);
    var s0 := State(s.server.(tables := EMPTY), s.clients);
    SendAnnounces(s, EMPTY, Update(BLANK.(op := NONE), EMPTY), Next(s, Command(raw, stored)));
  }

  /** All other lines: those that cannot be parsed end the server, the rest do nothing. */
  lemma LineFails(s: State, raw: seq<char>, stored: bool)
    requires s.server.status == UP && !Verb(WordsOf(Line(raw)), 'F')
    requires forall c :: !Denotes(WordsOf(Line(raw)), stored, c)
    ensures var s' := Next(s, Command(raw, stored));
            s' == if Breaks(WordsOf(Line(raw))) then State(s.server.(status := CRASHED), s.clients) else s
  {
    var ts := WordsOf(Line(raw));
    var (o, m) := Parse(ts, BLANK, false, stored);
    ParseByVerb(ts, BLANK, false, stored);
    BreaksExact(ts, BLANK, false, stored);
    ParseMeaning(ts, stored, Effect(m));
    FlushedVerb(ts, stored);
  }

  lemma FlushedVerb(ts: Words, stored: bool)
    ensures Parse(ts, BLANK, false, stored).0 == Flushed <==> Verb(ts, 'F')
  {
    ParseByVerb(ts, BLANK, false, stored);
    TargetNotFlushed(ts, BLANK.(op := CREATE), false, stored);
    TargetNotFlushed(ts, BLANK.(op := UPDATE), false, stored);
    TargetNotFlushed(ts, BLANK.(op := DELETE), false, stored);
  }

  // ----- A connection -----

  /** The packets of a welcome: the routes as the client will read them, each with the flag
      0; the end of them with 1; the MAC addresses, still with 1; and the end with 2. */
  ghost predicate IsWelcome(t: Tables, w: seq<Sent>) {
    var n, k := |t.rt|, |t.ml|;
    && |w| == n + k + 2
    && (forall i | 0 <= i < |w| :: w[i].packet.loop == 1 && w[i].stamp == t)
    && (forall i | 0 <= i < |w| :: w[i].packet.synchronized == if i < n then 0 else if i <= n + k then 1 else 2)
    && (forall i | 0 <= i < n :: Effect(w[i].packet.msg) == AddRoute(Seen(t.rt, NO_ROUTE)[i]))
    && (forall i | 0 <= i < k :: Effect(w[n + 1 + i].packet.msg) == AddMac(t.ml[i]))
    && w[n].packet.msg.op == NONE && w[n + k + 1].packet.msg.op == NONE
  }

  /** The messages of a stream have these effects, and the last has none. */
  ghost predicate Says(ms: seq<Msg>, cs: seq<Change>) {
    && |ms| == |cs| + 1 && ms[|cs|].op == NONE
    && forall i | 0 <= i < |cs| :: Effect(ms[i]) == cs[i]
  }

  lemma SaysMore(m: Msg, ms: seq<Msg>, cs: seq<Change>)
    requires Says(ms, cs)
    ensures Says([m] + ms, [Effect(m)] + cs)
  {
  }

  function AddingRoutes(rt: seq<Route>): (cs: seq<Change>)
    ensures |cs| == |rt| && forall i | 0 <= i < |rt| :: cs[i] == AddRoute(rt[i])
  {
    seq(|rt|, i requires 0 <= i < |rt| => AddRoute(rt[i]))
  }

  function AddingMacs(ml: seq<CStr>): (cs: seq<Change>)
    ensures |cs| == |ml| && forall i | 0 <= i < |ml| :: cs[i] == AddMac(ml[i])
  {
    seq(|ml|, i requires 0 <= i < |ml| => AddMac(ml[i]))
  }

  /** The message for a route, in terms of what it reads as. */
  lemma RouteMessageReads(r: Route, m: Msg)
    requires CleanBody(m.body) && ValidRoute(r)
    ensures var m' := RouteMessage(r, m);
            && CleanBody(m'.body) && RouteOf(m'.body) == OverlayRoute(r, RouteOf(m.body))
            && Effect(m') == AddRoute(OverlayRoute(r, RouteOf(m.body)))
  {
    ReparseRoute(r, m.(op := CREATE));
  }

  lemma StreamFirst(rt: seq<Route>, m: Msg)
    requires rt != []
    ensures RouteStream(rt, m) == [RouteMessage(rt[0], m)] + RouteStream(rt[1..], RouteMessage(rt[0], m))
  {
  }

  lemma SeenFirst(rt: seq<Route>, was: Route, r: Route)
    requires rt != [] && r == OverlayRoute(rt[0], was)
    ensures AddingRoutes(Seen(rt, was)) == [AddRoute(r)] + AddingRoutes(Seen(rt[1..], r))
  {
    AddingMore(r, Seen(rt[1..], r));
  }

  lemma AddingMore(r: Route, rs: seq<Route>)
    ensures AddingRoutes([r] + rs) == [AddRoute(r)] + AddingRoutes(rs)
  {
  }

  lemma {:induction false} RouteStreamSays(rt: seq<Route>, m: Msg)
    requires CleanBody(m.body) && forall r | r in rt :: ValidRoute(r)
    ensures Says(RouteStream(rt, m), AddingRoutes(Seen(rt, RouteOf(m.body))))
    decreases |rt|
  {
    if rt != [] {
      var m' := RouteMessage(rt[0], m);
      RouteMessageReads(rt[0], m);
      RouteStreamSays(rt[1..], m');
      StreamFirst(rt, m);
      SeenFirst(rt, RouteOf(m.body), RouteOf(m'.body));
      SaysMore(m', RouteStream(rt[1..], m'), AddingRoutes(Seen(rt[1..], RouteOf(m'.body))));
    }
  }

  lemma {:induction false} MacStreamSays(ml: seq<CStr>, m: Msg)
    requires m.body[MAC_ADDR_LEN - 1] == NUL && forall mac | mac in ml :: IsMac(mac)
    ensures Says(MacStream(ml, m), AddingMacs(ml))
    decreases |ml|
  {
    if ml != [] {
      var m' := MacMessage(ml[0], m);
      ReparseMac(ml[0], m.(op := CREATE));
      MacStreamSays(ml[1..], m');
      SaysMore(m', MacStream(ml[1..], m'), AddingMacs(ml[1..]));
      assert AddingMacs(ml) == [AddMac(ml[0])] + AddingMacs(ml[1..]);
    }
  }

  /** One phase: the messages, their flags, and the flag of the last. */
  ghost predicate IsPhase(ms: seq<Msg>, during: int, atEnd: int, t: Tables, w: seq<Sent>) {
    && |w| == |ms|
    && forall i | 0 <= i < |ms| ::
         w[i] == Sent(Packet(ms[i], if i < |ms| - 1 then during else atEnd, 1), t)
  }

  lemma PhaseIs(ms: seq<Msg>, during: int, atEnd: int, t: Tables)
    requires ms != []
    ensures IsPhase(ms, during, atEnd, t, Phase(ms, during, atEnd, t))
  {
  }

  lemma WelcomeIs(t: Tables)
    requires ValidTables(t)
    ensures IsWelcome(t, Welcome(t))
  {
    var rs := RouteStream(t.rt, BLANK);
    var ms := MacStream(t.ml, rs[|t.rt|]);
    BlankClean();
    RouteStreamReplays(EMPTY, t.rt, BLANK);
    RouteStreamSays(t.rt, BLANK);
    MacStreamSays(t.ml, rs[|t.rt|]);
    PhaseIs(rs, WAIT, RT, t);
    PhaseIs(ms, RT, ML, t);
    TwoPhases(t, rs, ms, Phase(rs, WAIT, RT, t), Phase(ms, RT, ML, t));
  }

  lemma TwoPhases(t: Tables, rs: seq<Msg>, ms: seq<Msg>, a: seq<Sent>, b: seq<Sent>)
    requires Says(rs, AddingRoutes(Seen(t.rt, NO_ROUTE))) && Says(ms, AddingMacs(t.ml))
    requires IsPhase(rs, 0, 1, t, a) && IsPhase(ms, 1, 2, t, b)
    ensures IsWelcome(t, a + b)
  {
  }

  /** A client that connects is sent a welcome and nobody else is sent anything. It starts
      with nothing, its process id goes to the first free place, and it to the first free slot. */
  lemma ConnectMeans(s: State, fd: int, pid: int, i: nat, j: nat)
    requires Inv(s) && Enabled(s, Connect(fd, pid))
    requires IsFirstFree(s.server.slots, i) && IsFirstFree(s.server.pids, j)
    ensures var s' := Next(s, Connect(fd, pid));
            && IsWelcome(s.server.tables, s'.server.wire[fd])
            && s'.server.wire == s.server.wire[fd := s'.server.wire[fd]]
            && s'.clients == s.clients[fd := Client(EMPTY, pid, true)]
            && s'.server.slots == Placed(s.server.slots, i, fd) && s'.server.pids == Placed(s.server.pids, j, pid)
            && s'.server.tables == s.server.tables && s'.server.status == UP
  {
    WelcomeIs(s.server.tables);
    AddsAtFirst(s.server.slots, fd, i);
    AddsAtFirst(s.server.pids, pid, j);
  }

  predicate IsFirstFree(a: seq<int>, i: nat) {
    i <= |a| && (forall j | 0 <= j < i :: a[j] != -1) && (i < |a| ==> a[i] == -1)
  }

  function Placed(a: seq<int>, i: nat, x: int): seq<int> {
    if i < |a| then a[i := x] else a
  }

  /** A client that has gone before its welcome leaves its number and its process id behind,
      and no server. */
  lemma LostMeans(s: State, fd: int, pid: int, i: nat, j: nat)
    requires Inv(s) && Enabled(s, Lost(fd, pid))
    requires IsFirstFree(s.server.slots, i) && IsFirstFree(s.server.pids, j)
    ensures var s' := Next(s, Lost(fd, pid));
            && s'.server.status == CRASHED && s'.clients == s.clients && s'.server.tables == s.server.tables
            && s'.server.wire == s.server.wire[fd := []]
            && s'.server.slots == Placed(s.server.slots, i, fd) && s'.server.pids == Placed(s.server.pids, j, pid)
  {
    AddsAtFirst(s.server.slots, fd, i);
    AddsAtFirst(s.server.pids, pid, j);
  }

  // ----- The rest -----

  /** A dismissed client has no slot and no socket any more, so both can be used again; and
      nothing else changes. */
  lemma DoneMeans(s: State, fd: int)
    requires Inv(s) && Enabled(s, Done(fd))
    ensures var s' := Next(s, Done(fd));
            && (exists i :: 2 <= i < 32 && s.server.slots[i] == fd && s'.server.slots == s.server.slots[i := -1])
            && fd !in s'.server.slots && Acceptable(s'.server, fd)
            && s'.server.wire.Keys == s.server.wire.Keys - {fd}
            && (forall g | g in s'.server.wire :: s'.server.wire[g] == s.server.wire[g])
            && s'.clients == s.clients && s'.server.pids == s.server.pids
            && s'.server.tables == s.server.tables && s'.server.status == UP
  {
    var slots := s.server.slots;
    DoneIsClient(s, fd);
    var j :| 0 <= j < |slots[2..]| && slots[2..][j] == fd && fd != -1;
    assert slots[j + 2] == fd;
    forall k | 0 <= k < j + 2 ensures slots[k] != fd {
    }
    RemovesFirst(slots, fd, j + 2);
  }

  /** SIGINT: a packet with the flags 0 and 0 to whoever the loop gets to. The tables stay
      for comparison. */
  lemma InterruptMeans(s: State, m: Msg)
    requires Inv(s) && Enabled(s, Interrupt(m))
    ensures var s' := Next(s, Interrupt(m));
            && Announced(s, s', Nothing, 0, 0)
            && s'.server.tables == s.server.tables && s'.clients == s.clients && s'.server.pids == s.server.pids
            && s'.server.status == (if NoneGone(s) then STOPPED else CRASHED)
            && s'.server.slots == if NoneGone(s) then s.server.slots[1 := -1] else s.server.slots
  {
    var sv := s.server;
    var sent := State(Send(sv, s.clients.Keys, Farewell(m, sv.tables)), s.clients);
    SurvivesIff(sv.slots, s.clients.Keys);
    SendAnnounces(s, sv.tables, Farewell(m, sv.tables), sent);
    SameAnnouncement(s, sent, Next(s, Interrupt(m)), Nothing, 0, 0);
    RemovesFirst(sv.slots, sv.conn, 1);
  }

  lemma SameAnnouncement(s: State, a: State, b: State, c: Change, synchronized: int, loop: int)
    requires Announced(s, a, c, synchronized, loop)
    requires a.server.wire == b.server.wire && a.server.tables == b.server.tables
    requires a.server.status == CRASHED <==> b.server.status == CRASHED
    ensures Announced(s, b, c, synchronized, loop)
  {
  }

  /** A packet is taken off its channel. The client's tables change as it says and the client
      goes on as it says, or is killed; and nothing else changes. */
  lemma DeliverMeans(s: State, fd: int)
    requires Inv(s) && Enabled(s, Deliver(fd))
    ensures var s', w := Next(s, Deliver(fd)), s.server.wire[fd];
            && w == [w[0]] + s'.server.wire[fd] && s'.server.wire.Keys == s.server.wire.Keys
            && (forall g | g in s.server.wire && g != fd :: s'.server.wire[g] == s.server.wire[g])
            && (forall g | g in s.clients && g != fd :: g in s'.clients && s'.clients[g] == s.clients[g])
            && (fd !in s'.clients <==> ReadsName(s.clients[fd].tables.rt, w[0].packet.msg) && Unended(w[0].packet.msg))
            && (fd in s'.clients ==>
                  && s'.clients[fd].tables == Replay(s.clients[fd].tables, [w[0].packet.msg])
                  && (s'.clients[fd].running <==> w[0].packet.loop != 0)
                  && s'.clients[fd].pid == s.clients[fd].pid)
  {
    var w := s.server.wire[fd];
    assert w == [w[0]] + w[1..];
    ReplayOne(s.clients[fd].tables, w[0].packet.msg);
  }

  /** At the end of file a client gains the route without destination, if it does not have
      it already, and goes on. */
  lemma EndOfFileMeans(s: State, fd: int)
    requires Enabled(s, EndOfFile(fd))
    ensures var s', t := Next(s, EndOfFile(fd)), s.clients[fd].tables;
            && s'.server == s.server
            && s'.clients == s.clients[fd := s'.clients[fd]]
            && s'.clients[fd].running && s'.clients[fd].pid == s.clients[fd].pid
            && s'.clients[fd].tables.ml == t.ml
            && s'.clients[fd].tables.rt ==
                 if exists r :: r in t.rt && r.dest == "" && r.mask == 0 then t.rt else t.rt + [Route("", 0, "", "")]
  {
    BlankClean();
    var t := s.clients[fd].tables;
    var i := FindRoute(t.rt, "", 0);
    if i < |t.rt| {
      assert t.rt[i] in t.rt;
    }
    assert Effect(BLANK) == AddRoute(NO_ROUTE);
  }
}
