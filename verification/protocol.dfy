/** The replication protocol as a transition system: one server, any number of clients,
    one FIFO channel to each of them. Every step is one pass of a main loop, one receipt
    or one signal; any interleaving of them is a run. */
module Protocol {
  import opened CString
  import opened Message
  import opened Address
  import opened Table
  import opened Slots
  import opened Snapshot

  const WAIT := 0
  const RT := 1
  const ML := 2

  /** What one update consists of on the wire. */
  datatype Packet = Packet(msg: Msg, synchronized: int, loop: int)

  /** A packet under way. `stamp` is history: the server's tables when it was written. */
  datatype Sent = Sent(packet: Packet, stamp: Tables)

  /** A server stops by SIGINT, once it has told all its clients. It crashes by a write to
      a socket that its client has closed, and where C gives no meaning to what it does. */
  datatype Status = UP | STOPPED | CRASHED

  /** After the end, `tables` are those that the server had. */
  datatype Server = Server(tables: Tables, slots: seq<int>, pids: seq<int>, conn: int, status: Status,
                           wire: map<int, seq<Sent>>)

  datatype Client = Client(tables: Tables, pid: int, running: bool)

  /** Clients are named by the server's descriptor for them. */
  datatype State = State(server: Server, clients: map<int, Client>)

  function Msgs(w: seq<Sent>): (ms: seq<Msg>)
    ensures |ms| == |w|
  {
    seq(|w|, i requires 0 <= i < |w| => w[i].packet.msg)
  }

  // ----- The server -----

  function Stamped(ms: seq<Msg>, synchronized: int, t: Tables): (w: seq<Sent>)
    ensures |w| == |ms|
  {
    seq(|ms|, i requires 0 <= i < |ms| => Sent(Packet(ms[i], synchronized, 1), t))
  }

  /** The first phase says WAIT until its closing message says RT; that flag then also
      rides on the entries of the second phase, whose closing message says ML. */
  function Welcome(t: Tables): seq<Sent> {
    var rs := RouteStream(t.rt, BLANK);
    var ms := MacStream(t.ml, rs[|t.rt|]);
    Phase(rs, WAIT, RT, t) + Phase(ms, RT, ML, t)
  }

  function Phase(ms: seq<Msg>, during: int, atEnd: int, t: Tables): seq<Sent>
    requires ms != []
  {
    Stamped(ms[..|ms| - 1], during, t) + [Sent(Packet(ms[|ms| - 1], atEnd, 1), t)]
  }

  function OnConnect(sv: Server, fd: int, pid: int): Server {
    Admit(sv, fd, pid, Welcome(sv.tables))
  }

  function Admit(sv: Server, fd: int, pid: int, w: seq<Sent>): Server {
    sv.(slots := AddFd(sv.slots, fd), pids := AddFd(sv.pids, pid), wire := sv.wire[fd := w])
  }

  /** A client that has closed its socket before its welcome is written. */
  function OnLost(sv: Server, fd: int, pid: int): Server {
    Admit(sv, fd, pid, []).(status := CRASHED)
  }

  function Broadcast(wire: map<int, seq<Sent>>, fds: set<int>, s: Sent): map<int, seq<Sent>> {
    map fd | fd in wire :: if fd in fds then wire[fd] + [s] else wire[fd]
  }

  /** The same packet to every slot from 2 on, or to those before the first departed client. */
  function Send(sv: Server, peers: set<int>, s: Sent): Server {
    sv.(wire := Broadcast(sv.wire, Reached(sv.slots, peers), s),
        status := if Survives(sv.slots, peers) then sv.status else CRASHED)
  }

  /** The text before the first line break. */
  function Line(raw: seq<char>): CStr {
    CutLine(Str(raw))
  }

  function CutLine(s: CStr): (r: CStr)
    ensures r <= s
  {
    if s == "" || s[0] in "\r\n" then "" else [s[0]] + CutLine(s[1..])
  }

  function ParseLine(raw: seq<char>, stored: bool): (Outcome, Msg) {
    Parse(WordsOf(Line(raw)), BLANK, false, stored)
  }

  function OnCommand(sv: Server, peers: set<int>, raw: seq<char>, stored: bool): Server {
    var (o, m) := ParseLine(raw, stored);
    OnOutcome(sv, peers, o, m)
  }

  function OnOutcome(sv: Server, peers: set<int>, o: Outcome, m: Msg): Server {
    match o
    case Accepted => OnMessage(sv, peers, m)
    case Flushed => OnMessage(sv.(tables := EMPTY), peers, m)
    case Rejected => sv
    case Undefined => sv.(status := CRASHED)
  }

  /** The server processes a message itself before it passes it on. */
  function OnMessage(sv: Server, peers: set<int>, m: Msg): Server {
    var t := Apply(sv.tables, Effect(m));
    if Defined(sv.tables, m) then Send(sv.(tables := t), peers, Update(m, t)) else sv.(status := CRASHED)
  }

  /** The packet for a message that has been applied: the table it was for is up to date. */
  function Update(m: Msg, t: Tables): Sent {
    Sent(Packet(m, if m.l == L3 then RT else ML, 1), t)
  }

  function OnDone(sv: Server, fd: int): Server {
    sv.(slots := RemoveFd(sv.slots, fd), wire := sv.wire - {fd})
  }

  function OnAllDone(sv: Server, fds: seq<int>): Server {
    if fds == [] then sv else OnDone(OnAllDone(sv, fds[..|fds| - 1]), fds[|fds| - 1])
  }

  /** `m` is not initialized apart from its operation. */
  function OnInterrupt(sv: Server, peers: set<int>, m: Msg): Server {
    var sv' := Send(sv, peers, Farewell(m, sv.tables));
    if sv'.status == UP then sv'.(status := STOPPED, slots := RemoveFd(sv.slots, sv.conn)) else sv'
  }

  function Farewell(m: Msg, t: Tables): Sent {
    Sent(Packet(m, WAIT, 0), t)
  }

  // ----- A client -----

  function Receive(c: Client, p: Packet): Client {
    c.(tables := Apply(c.tables, Effect(p.msg)), running := p.loop != 0)
  }

  /** At the end of file nothing is read: the message stays as it came from `calloc`, and
      the loop flag as it was. */
  function ReadEnd(c: Client): Client {
    c.(tables := Apply(c.tables, Effect(BLANK)))
  }

  // ----- Steps -----

  datatype Step =
    | Connect(fd: int, pid: int)
    | Lost(fd: int, pid: int)
    | Command(raw: seq<char>, stored: bool)
    | Deliver(fd: int)
    | EndOfFile(fd: int)
    | Leave(fd: int)
    | Done(fd: int)
    | Interrupt(m: Msg)

  predicate Enabled(s: State, step: Step) {
    var sv := s.server;
    match step
    case Connect(fd, pid) => sv.status == UP && Acceptable(sv, fd) && pid > 0
    case Lost(fd, pid) => sv.status == UP && Acceptable(sv, fd) && pid > 0
    case Command(_, _) => sv.status == UP
    case Deliver(fd) => Reading(s, fd) && sv.wire[fd] != []
    case EndOfFile(fd) => Reading(s, fd) && sv.wire[fd] == [] && sv.status != UP
    case Leave(fd) => fd in s.clients && s.clients[fd].running
    case Done(fd) => sv.status == UP && fd in sv.wire && fd !in s.clients && fd in Members(sv.slots)
    case Interrupt(m) => sv.status == UP && m.op == NONE
  }

  /** `accept` yields a descriptor that is not open. */
  predicate Acceptable(sv: Server, fd: int) {
    fd > 0 && fd != sv.conn && fd !in sv.wire
  }

  predicate Reading(s: State, fd: int) {
    fd in s.clients && s.clients[fd].running && fd in s.server.wire
  }

  /** `flush_clients` reaches the clients whose process id was recorded. */
  function Flush(clients: map<int, Client>, pids: seq<int>): map<int, Client> {
    map fd | fd in clients ::
      if clients[fd].pid in Members(pids) then clients[fd].(tables := EMPTY) else clients[fd]
  }

  /** A client that is sent something to which C gives no meaning is gone, like one that
      has left. */
  function Delivered(clients: map<int, Client>, fd: int, p: Packet): map<int, Client>
    requires fd in clients
  {
    if Defined(clients[fd].tables, p.msg) then clients[fd := Receive(clients[fd], p)] else clients - {fd}
  }

  function Next(s: State, step: Step): State
    requires Enabled(s, step)
  {
    match step
    case Connect(fd, pid) =>
      State(OnConnect(s.server, fd, pid), s.clients[fd := Client(EMPTY, pid, true)])
    case Lost(fd, pid) => State(OnLost(s.server, fd, pid), s.clients)
    case Command(raw, stored) =>
      State(OnCommand(s.server, s.clients.Keys, raw, stored),
            if ParseLine(raw, stored).0 == Flushed then Flush(s.clients, s.server.pids) else s.clients)
    case Deliver(fd) =>
      State(s.server.(wire := s.server.wire[fd := s.server.wire[fd][1..]]),
            Delivered(s.clients, fd, s.server.wire[fd][0].packet))
    case EndOfFile(fd) => State(s.server, s.clients[fd := ReadEnd(s.clients[fd])])
    case Leave(fd) => State(s.server, s.clients - {fd})
    case Done(fd) => State(OnDone(s.server, fd), s.clients)
    case Interrupt(m) => State(OnInterrupt(s.server, s.clients.Keys, m), s.clients)
  }

  function FreeSlots(): (s: seq<int>)
    ensures |s| == MAX_CLIENTS && forall i | 0 <= i < MAX_CLIENTS :: s[i] == -1
  {
    seq(MAX_CLIENTS, _ => -1)
  }

  function Init(conn: int): State {
    State(Server(EMPTY, AddFd(AddFd(FreeSlots(), 0), conn), FreeSlots(), conn, UP, map[]), map[])
  }

  // ----- The structural invariant -----

  ghost predicate Inv(s: State) {
    var sv := s.server;
    && ValidTables(sv.tables)
    && sv.conn > 0
    && Anchored(sv.slots, Listener(sv))
    && Clients(sv.slots) <= sv.wire.Keys
    && s.clients.Keys <= sv.wire.Keys
    && (forall fd | fd in sv.wire :: fd > 0 && fd != sv.conn && WireInv(sv.status, sv.wire[fd]))
    && (forall fd | fd in s.clients :: ClientInv(s.clients[fd], sv.status, sv.wire[fd]))
    && (sv.status == STOPPED ==> AllTold(s))
    && OnlyWelcomed(s)
  }

  /** The master socket is closed before the server stops. */
  function Listener(sv: Server): int {
    if sv.status == STOPPED then -1 else sv.conn
  }

  /** The strings of every message under way end inside their fields, but for interface
      names. Only the last packet of a server that is down can stop a client. */
  ghost predicate WireInv(status: Status, w: seq<Sent>) {
    && (forall i | 0 <= i < |w| :: Addressed(w[i].packet.msg))
    && (forall i | 0 <= i < |w| ::
          w[i].packet.loop == 0 ==> status != UP && i == |w| - 1 && w[i].packet.msg.op == NONE)
  }

  ghost predicate ClientInv(c: Client, status: Status, w: seq<Sent>) {
    && Unique(c.tables)
    && c.pid > 0
    && (!c.running ==> status != UP && w == [])
  }

  /** A client without a slot is sent its welcome and nothing else. */
  ghost predicate OnlyWelcomed(s: State) {
    forall fd | fd in s.clients && fd !in Clients(s.server.slots) && fd in s.server.wire ::
      AllReady(Msgs(s.server.wire[fd]))
  }

  predicate Told(w: seq<Sent>) {
    w != [] && w[|w| - 1].packet.loop == 0
  }

  /** Every registered client has stopped or is going to. */
  ghost predicate AllTold(s: State) {
    forall fd | fd in Clients(s.server.slots) && Reading(s, fd) :: Told(s.server.wire[fd])
  }

  lemma InitSlots(conn: int)
    requires conn > 0
    ensures var slots := Init(conn).server.slots;
            slots == FreeSlots()[0 := 0][1 := conn] && Anchored(slots, conn) && Slots.Clients(slots) == {}
  {
    var s0 := FreeSlots();
    assert First(s0, -1) == 0;
    var s1 := s0[0 := 0];
    assert s1[1] == -1 && First(s1, -1) == 1;
    var s2 := s1[1 := conn];
    assert forall i | 0 <= i < |s2[2..]| :: s2[2..][i] == -1;
  }

  lemma InitInv(conn: int)
    requires conn > 0
    ensures Inv(Init(conn))
  {
    InitSlots(conn);
  }

  ghost predicate ValidChange(c: Change) {
    match c
    case AddRoute(r) => TypedRoute(r)
    case SetRoute(r) => TypedRoute(r)
    case AddMac(mac) => IsMac(mac)
    case _ => true
  }

  /** A name that does not end never gets into a table: it would be looked at first. */
  lemma ApplyValid(t: Tables, m: Msg)
    requires ValidTables(t) && ValidChange(Effect(m)) && Defined(t, m)
    ensures ValidTables(Apply(t, Effect(m)))
  {
    var c := Effect(m);
    ApplyUnique(t, c);
    var t' := Apply(t, c);
    forall r | r in t'.rt ensures ValidRoute(r) {
      var i :| 0 <= i < |t'.rt| && t'.rt[i] == r;
      if c.SetRoute? {
        assert t.rt[i] in t.rt;
      }
    }
  }

  /** Commands can only put well-formed entries into the tables. */
  lemma CommandValid(raw: seq<char>, stored: bool)
    ensures var (o, m) := ParseLine(raw, stored);
            && (o == Accepted ==> ValidChange(Effect(m)))
            && (o == Flushed ==> m == BLANK.(op := NONE))
            && (o == Accepted || o == Flushed ==> Addressed(m) && (Ready(m) <==> !Unended(m)))
            && (o == Accepted || o == Flushed ==> (Unended(m) <==> Fills(WordsOf(Line(raw)))))
  {
    ParseReady(WordsOf(Line(raw)), stored);
    AcceptedValid(WordsOf(Line(raw)), stored);
    FlushedBlank(WordsOf(Line(raw)), stored);
  }

  lemma AcceptedValid(ts: Words, stored: bool)
    ensures var (o, m) := Parse(ts, BLANK, false, stored); o == Accepted ==> ValidChange(Effect(m))
  {
    var c := Effect(Parse(ts, BLANK, false, stored).1);
    ParseMeaning(ts, stored, c);
    assert Denotes(ts, stored, c) ==> ValidChange(c);
  }

  lemma FlushedBlank(ts: Words, stored: bool)
    ensures var (o, m) := Parse(ts, BLANK, false, stored); o == Flushed ==> m == BLANK.(op := NONE)
  {
    ParseByVerb(ts, BLANK, false, stored);
    TargetNotFlushed(ts, BLANK.(op := CREATE), false, stored);
    TargetNotFlushed(ts, BLANK.(op := UPDATE), false, stored);
    TargetNotFlushed(ts, BLANK.(op := DELETE), false, stored);
  }

  lemma TargetNotFlushed(ts: Words, m: Msg, silent: bool, stored: bool)
    ensures ParseTarget(ts, m, silent, stored).0 != Flushed
  {
    if |ts| > 1 && IsIp(ts[1]) {
      IpShape(ts[1]);
      MaskNotFlushed(ts, m.(l := L3, body := Put(m.body, 0, ts[1])));
    }
  }

  lemma MaskNotFlushed(ts: Words, m: Msg)
    ensures ParseMask(ts, m).0 != Flushed
  {
  }

  lemma BroadcastInv(wire: map<int, seq<Sent>>, fds: set<int>, s: Sent, status: Status)
    requires forall fd | fd in wire :: WireInv(UP, wire[fd])
    requires Addressed(s.packet.msg) && (s.packet.loop == 0 ==> status != UP && s.packet.msg.op == NONE)
    ensures forall fd | fd in wire :: WireInv(status, Broadcast(wire, fds, s)[fd])
  {
  }

  lemma CrashInv(s: State, t: Tables)
    requires Inv(s) && s.server.status == UP && ValidTables(t)
    ensures Inv(State(s.server.(tables := t, status := CRASHED), s.clients))
  {
  }

  lemma SendInv(s: State, t: Tables, p: Sent)
    requires Inv(s) && s.server.status == UP && ValidTables(t) && Addressed(p.packet.msg) && p.packet.loop != 0
    ensures Inv(State(Send(s.server.(tables := t), s.clients.Keys, p), s.clients))
  {
    var sv' := Send(s.server.(tables := t), s.clients.Keys, p);
    ReachedAreClients(s.server.slots, s.clients.Keys);
    BroadcastInv(s.server.wire, Reached(s.server.slots, s.clients.Keys), p, sv'.status);
  }

  lemma OnMessageInv(s: State, t: Tables, m: Msg)
    requires Inv(s) && s.server.status == UP && ValidTables(t) && ValidChange(Effect(m)) && Addressed(m)
    ensures Inv(State(OnMessage(s.server.(tables := t), s.clients.Keys, m), s.clients))
  {
    if Defined(t, m) {
      ApplyValid(t, m);
      SendInv(s, Apply(t, Effect(m)), Update(m, Apply(t, Effect(m))));
    } else {
      CrashInv(s, t);
    }
  }

  /** Packets that do not stop a client, and can be processed whatever it has. */
  ghost predicate Harmless(w: seq<Sent>) {
    forall i | 0 <= i < |w| :: Ready(w[i].packet.msg) && w[i].packet.loop == 1
  }

  lemma HarmlessInv(w: seq<Sent>, status: Status)
    requires Harmless(w)
    ensures WireInv(status, w) && AllReady(Msgs(w))
  {
  }

  lemma WelcomeHarmless(t: Tables)
    requires ValidTables(t)
    ensures Harmless(Welcome(t))
  {
    var rs := RouteStream(t.rt, BLANK);
    var ms := MacStream(t.ml, rs[|t.rt|]);
    BlankClean();
    RouteStreamReady(t.rt, BLANK);
    RouteStreamReplays(EMPTY, t.rt, BLANK);
    MacStreamReady(t.ml, rs[|t.rt|]);
    PhaseHarmless(rs, WAIT, RT, t);
    PhaseHarmless(ms, RT, ML, t);
    BothHarmless(Phase(rs, WAIT, RT, t), Phase(ms, RT, ML, t));
  }

  lemma BothHarmless(a: seq<Sent>, b: seq<Sent>)
    requires Harmless(a) && Harmless(b)
    ensures Harmless(a + b)
  {
  }

  lemma PhaseHarmless(ms: seq<Msg>, during: int, atEnd: int, t: Tables)
    requires ms != [] && AllReady(ms)
    ensures Harmless(Phase(ms, during, atEnd, t))
  {
  }

  lemma AdmitInv(s: State, fd: int, pid: int, w: seq<Sent>)
    requires Inv(s) && s.server.status == UP && Acceptable(s.server, fd) && WireInv(UP, w)
    ensures fd in Clients(AddFd(s.server.slots, fd)) || Clients(AddFd(s.server.slots, fd)) == Clients(s.server.slots)
    ensures Inv(State(Admit(s.server, fd, pid, w), s.clients))
  {
    AddClient(s.server.slots, s.server.conn, fd);
  }

  lemma ConnectInv(s: State, fd: int, pid: int)
    requires Inv(s) && Enabled(s, Connect(fd, pid))
    ensures Inv(Next(s, Connect(fd, pid)))
  {
    WelcomeHarmless(s.server.tables);
    HarmlessInv(Welcome(s.server.tables), UP);
    AdmitInv(s, fd, pid, Welcome(s.server.tables));
    assert Unique(EMPTY);
  }

  lemma LostInv(s: State, fd: int, pid: int)
    requires Inv(s) && Enabled(s, Lost(fd, pid))
    ensures Inv(Next(s, Lost(fd, pid)))
  {
    AdmitInv(s, fd, pid, []);
  }

  /** Tables emptied on both sides, before the update that goes with it. */
  function Emptied(s: State): State {
    State(s.server.(tables := EMPTY), Flush(s.clients, s.server.pids))
  }

  lemma EmptiedInv(s: State)
    requires Inv(s) && s.server.status == UP
    ensures Inv(Emptied(s)) && Emptied(s).clients.Keys == s.clients.Keys
  {
  }

  lemma FlushInv(s: State, m: Msg)
    requires Inv(s) && s.server.status == UP && m == BLANK.(op := NONE)
    ensures Inv(State(OnMessage(s.server.(tables := EMPTY), s.clients.Keys, m), Flush(s.clients, s.server.pids)))
  {
    EmptiedInv(s);
    OnMessageInv(Emptied(s), EMPTY, m);
  }

  lemma CommandInv(s: State, raw: seq<char>, stored: bool)
    requires Inv(s) && s.server.status == UP
    ensures Inv(Next(s, Command(raw, stored)))
  {
    CommandValid(raw, stored);
    var (o, m) := ParseLine(raw, stored);
    match o
    case Accepted => OnMessageInv(s, s.server.tables, m);
    case Flushed => FlushInv(s, m);
    case Rejected =>
    case Undefined =>
  }

  lemma TailInv(w: seq<Sent>, status: Status)
    requires WireInv(status, w) && w != []
    ensures WireInv(status, w[1..]) && (AllReady(Msgs(w)) ==> AllReady(Msgs(w[1..])))
    ensures w[0].packet.loop == 0 ==> w[1..] == [] && status != UP
  {
    assert Msgs(w[1..]) == Msgs(w)[1..];
  }

  lemma DeliverInv(s: State, fd: int)
    requires Inv(s) && Enabled(s, Deliver(fd))
    ensures Inv(Next(s, Deliver(fd)))
  {
    var w := s.server.wire[fd];
    assert WireInv(s.server.status, w) && ClientInv(s.clients[fd], s.server.status, w);
    TailInv(w, s.server.status);
    ApplyUnique(s.clients[fd].tables, Effect(w[0].packet.msg));
    assert ClientInv(Receive(s.clients[fd], w[0].packet), s.server.status, w[1..]);
  }

  lemma EndOfFileInv(s: State, fd: int)
    requires Inv(s) && Enabled(s, EndOfFile(fd))
    ensures Inv(Next(s, EndOfFile(fd)))
  {
    ApplyUnique(s.clients[fd].tables, Effect(BLANK));
  }

  lemma DoneInv(s: State, fd: int)
    requires Inv(s) && Enabled(s, Done(fd))
    ensures Inv(Next(s, Done(fd)))
  {
    DoneIsClient(s, fd);
    RemoveClient(s.server.slots, s.server.conn, fd);
  }

  lemma InterruptInv(s: State, m: Msg)
    requires Inv(s) && Enabled(s, Interrupt(m))
    ensures Inv(Next(s, Interrupt(m)))
  {
    var sv, s' := s.server, Next(s, Interrupt(m));
    InterruptSlots(s);
    SurvivesIff(sv.slots, s.clients.Keys);
    ReachedAreClients(sv.slots, s.clients.Keys);
    BroadcastInv(sv.wire, Reached(sv.slots, s.clients.Keys), Farewell(m, sv.tables), s'.server.status);
  }

  /** Every step keeps the structural invariant. */
  lemma StepInv(s: State, step: Step)
    requires Inv(s) && Enabled(s, step)
    ensures Inv(Next(s, step))
  {
    match step
    case Connect(fd, pid) => ConnectInv(s, fd, pid);
    case Lost(fd, pid) => LostInv(s, fd, pid);
    case Command(raw, stored) => CommandInv(s, raw, stored);
    case Deliver(fd) => DeliverInv(s, fd);
    case EndOfFile(fd) => EndOfFileInv(s, fd);
    case Leave(fd) =>
    case Done(fd) => DoneInv(s, fd);
    case Interrupt(m) => InterruptInv(s, m);
  }

  lemma DoneIsClient(s: State, fd: int)
    requires Inv(s) && s.server.status == UP && fd in s.server.wire && fd in Members(s.server.slots)
    ensures fd in Clients(s.server.slots)
  {
    var sl := s.server.slots;
    var j :| 0 <= j < |sl| && sl[j] == fd;
    assert sl[2..][j - 2] == fd;
  }

  lemma InterruptSlots(s: State)
    requires Inv(s) && s.server.status == UP
    ensures var sl := RemoveFd(s.server.slots, s.server.conn);
            Anchored(sl, -1) && Clients(sl) == Clients(s.server.slots)
  {
    var sl := s.server.slots;
    assert First(sl, s.server.conn) == 1;
    assert RemoveFd(sl, s.server.conn)[2..] == sl[2..];
  }
}
