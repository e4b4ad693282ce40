/** The server in memory: its globals, and what one pass of its main loop does to them. */
module ServerProcess {
  import opened Message
  import opened Table
  import opened Slots
  import opened Snapshot
  import opened LinkedList
  import opened Sync
  import opened Store
  import opened Parser
  import P = Protocol

  /** The message for one entry, written over the previous one. */
  function EntryMessage(l: LCode, row: Body, m: Msg): Msg {
    if l == L3 then RouteMessage(RouteOf(row), m) else MacMessage(MacOf(row), m)
  }

  /** The state of the message before the `i`-th entry is written into it. */
  function Before(m: Msg, ms: seq<Msg>, i: nat): Msg
    requires i <= |ms|
  {
    if i == 0 then m else ms[i - 1]
  }

  predicate Follows(l: LCode, rows: seq<Body>, m: Msg, ms: seq<Msg>, i: nat)
    requires i < |rows| && i < |ms|
  {
    ms[i] == EntryMessage(l, rows[i], Before(m, ms, i))
  }

  predicate Overwrites(l: LCode, rows: seq<Body>, m: Msg, ms: seq<Msg>) {
    |ms| <= |rows| && forall i | 0 <= i < |ms| :: Follows(l, rows, m, ms, i)
  }

  lemma OverwritesSnoc(l: LCode, rows: seq<Body>, m: Msg, ms: seq<Msg>, m': Msg)
    requires Overwrites(l, rows, m, ms) && |ms| < |rows| && m' == EntryMessage(l, rows[|ms|], Before(m, ms, |ms|))
    ensures Overwrites(l, rows, m, ms + [m'])
  {
    forall i | 0 <= i < |ms| ensures Follows(l, rows, m, ms + [m'], i) {
      FollowsStill(l, rows, m, ms, m', i);
    }
    assert Before(m, ms + [m'], |ms|) == Before(m, ms, |ms|);
  }

  lemma FollowsStill(l: LCode, rows: seq<Body>, m: Msg, ms: seq<Msg>, m': Msg, i: nat)
    requires i < |ms| && i < |rows| && Follows(l, rows, m, ms, i)
    ensures Follows(l, rows, m, ms + [m'], i)
  {
    assert Before(m, ms + [m'], i) == Before(m, ms, i) && (ms + [m'])[i] == ms[i];
  }

  /** The messages of one phase of `update_new_client`. */
  function Stream(l: LCode, rows: seq<Body>, m: Msg): (s: seq<Msg>)
    ensures |s| == |rows| + 1
  {
    if l == L3 then RouteStream(Routes(rows), m) else MacStream(Macs(rows), m)
  }

  lemma {:induction false} OverwritesIsStream(l: LCode, rows: seq<Body>, m: Msg, ms: seq<Msg>)
    requires |ms| == |rows| && Overwrites(l, rows, m, ms)
    ensures Stream(l, rows, m) == ms + [Closing(m, ms)]
  {
    if ms != [] {
      OverwritesTail(l, rows, m, ms);
      OverwritesIsStream(l, rows[1..], ms[0], ms[1..]);
      StreamStep(l, rows, m);
      assert Follows(l, rows, m, ms, 0);
      HeadFirst(ms, Closing(m, ms));
    }
  }

  lemma HeadFirst(ms: seq<Msg>, last: Msg)
    requires ms != []
    ensures [ms[0]] + (ms[1..] + [last]) == ms + [last]
  {
  }

  lemma OverwritesTail(l: LCode, rows: seq<Body>, m: Msg, ms: seq<Msg>)
    requires ms != [] && Overwrites(l, rows, m, ms)
    ensures Overwrites(l, rows[1..], ms[0], ms[1..])
    ensures Before(m, ms, |ms|) == Before(ms[0], ms[1..], |ms| - 1)
  {
    forall i | 0 <= i < |ms| - 1 ensures Follows(l, rows[1..], ms[0], ms[1..], i) {
      assert Follows(l, rows, m, ms, i + 1);
    }
  }

  lemma StreamStep(l: LCode, rows: seq<Body>, m: Msg)
    requires rows != []
    ensures Stream(l, rows, m) == [EntryMessage(l, rows[0], m)] + Stream(l, rows[1..], EntryMessage(l, rows[0], m))
  {
    assert Routes(rows)[1..] == Routes(rows[1..]) && Macs(rows)[1..] == Macs(rows[1..]);
  }

  function Closing(m: Msg, ms: seq<Msg>): Msg {
    Before(m, ms, |ms|).(op := NONE)
  }

  /** What one phase writes around these messages. */
  function PhaseOf(ms: seq<Msg>, m: Msg, during: int, atEnd: int, t: Tables): seq<P.Sent> {
    P.Stamped(ms, during, t) + [P.Sent(P.Packet(Closing(m, ms), atEnd, 1), t)]
  }

  /** What both phases write for these messages. */
  function BothPhases(ms: seq<Msg>, ns: seq<Msg>, t: Tables): seq<P.Sent> {
    var m := Closing(BLANK, ms);
    PhaseOf(ms, BLANK, P.WAIT, P.RT, t) + PhaseOf(ns, m, P.RT, P.ML, t)
  }

  lemma BothPhasesWelcome(routes: seq<Body>, macs: seq<Body>, ms: seq<Msg>, ns: seq<Msg>)
    requires |ms| == |routes| && Overwrites(L3, routes, BLANK, ms)
    requires |ns| == |macs| && Overwrites(L2, macs, Closing(BLANK, ms), ns)
    ensures var t := Tables(Routes(routes), Macs(macs)); BothPhases(ms, ns, t) == P.Welcome(t)
  {
    var t, m := Tables(Routes(routes), Macs(macs)), Closing(BLANK, ms);
    OverwritesIsStream(L3, routes, BLANK, ms);
    OverwritesIsStream(L2, macs, m, ns);
    PhaseIs(ms, BLANK, P.WAIT, P.RT, t);
    PhaseIs(ns, m, P.RT, P.ML, t);
  }

  lemma PhaseIs(ms: seq<Msg>, m: Msg, during: int, atEnd: int, t: Tables)
    ensures P.Phase(ms + [Closing(m, ms)], during, atEnd, t) == PhaseOf(ms, m, during, atEnd, t)
  {
    assert (ms + [Closing(m, ms)])[..|ms|] == ms;
  }

  function Flag(l: LCode): int {
    if l == L3 then P.RT else P.ML
  }

  /** Every printed entry fits the command buffer. */
  predicate AllPrintable(l: LCode, rows: seq<Body>) {
    forall i | 0 <= i < |rows| ::
      |if l == L3 then PrintRoute(RouteOf(rows[i])) else PrintMac(MacOf(rows[i]))| < OP_LEN
  }

  lemma AllFit(routes: EntryList, macs: EntryList)
    requires routes.l == L3 && macs.l == L2
    requires ValidTables(Tables(Routes(routes.rows), Macs(macs.rows)))
    ensures AllPrintable(L3, routes.rows) && AllPrintable(L2, macs.rows)
  {
    forall i | 0 <= i < |routes.rows| ensures |PrintRoute(RouteOf(routes.rows[i]))| < OP_LEN {
      assert Routes(routes.rows)[i] in Routes(routes.rows);
      PrintFits(RouteOf(routes.rows[i]));
    }
    forall i | 0 <= i < |macs.rows| ensures |PrintMac(MacOf(macs.rows[i]))| < OP_LEN {
      assert Macs(macs.rows)[i] in Macs(macs.rows);
      PrintMacFits(MacOf(macs.rows[i]));
    }
  }

  class Server {
    var routingTable: EntryList
    var macList: EntryList
    const fds: array<int>
    const pids: array<int>
    const conn: int
    var synchronized: int
    var status: P.Status

    /** The tables that the server had when it stopped: it empties the lists before it exits. */
    ghost var last: Tables

    /** What has been written to the sockets and not been read yet. */
    ghost var wire: map<int, seq<P.Sent>>

    /** The memory of the two lists. */
    ghost function Lists(): set<object>
      reads this, routingTable, macList
    {
      routingTable.Repr + macList.Repr
    }

    ghost predicate Valid()
      reads this, fds, pids, routingTable, macList, routingTable.Repr, macList.Repr
    {
      && routingTable.Valid() && routingTable.l == L3
      && macList.Valid() && macList.l == L2
      && routingTable.Repr !! macList.Repr
      && this !in Lists() && fds !in Lists() && pids !in Lists()
      && fds != pids && fds.Length == MAX_CLIENTS && pids.Length == MAX_CLIENTS
      && Distinct(fds[..]) && Slots.Clients(fds[..]) <= wire.Keys
    }

    ghost function Contents(): Tables
      reads this, routingTable, macList
    {
      Tables(Routes(routingTable.rows), Macs(macList.rows))
    }

    ghost function Abs(): P.Server
      reads this, fds, pids, routingTable, macList
    {
      P.Server(if status == P.STOPPED then last else Contents(), fds[..], pids[..], conn, status, wire)
    }

    /** The start of `main`, up to its loop. */
    constructor (conn: int)
      requires conn > 0
      ensures Valid() && Abs() == P.Init(conn).server
      ensures fresh(fds) && fresh(pids) && fresh(Lists())
    {
      routingTable := new EntryList(L3);
      macList := new EntryList(L2);
      var monitored := FirstFdSet(conn);
      fds := monitored;
      var recorded := NewFdSet();
      pids := recorded;
      this.conn := conn;
      synchronized, status, last, wire := 0, P.UP, EMPTY, map[];
      new;
      P.InitSlots(conn);
    }

    /** The three writes of one update. */
    method Write(fd: int, m: SyncMsg, flag: int, loop: int, ghost stamp: Tables)
      requires fd in wire && m.body.Length == BODY_LEN
      modifies this`wire
      ensures wire == old(wire)[fd := old(wire[fd]) + [P.Sent(P.Packet(m.Value(), flag, loop), stamp)]]
    {
      wire := wire[fd := wire[fd] + [P.Sent(P.Packet(m.Value(), flag, loop), stamp)]];
    }

    /** The loop over the slots from 2 on writes once to every client, as long as they are
        there: `peers` are the clients whose sockets are open. */
    method Broadcast(m: SyncMsg, flag: int, loop: int, peers: set<int>, ghost stamp: Tables) returns (survived: bool)
      requires Distinct(fds[..]) && Slots.Clients(fds[..]) <= wire.Keys
      requires fds.Length == MAX_CLIENTS && m.body.Length == BODY_LEN
      modifies this`wire
      ensures survived == Survives(fds[..], peers)
      ensures wire == P.Broadcast(old(wire), Reached(fds[..], peers),
                                  P.Sent(P.Packet(m.Value(), flag, loop), stamp))
    {
      ghost var s := P.Sent(P.Packet(m.Value(), flag, loop), stamp);
      ghost var slots := fds[..];
      assert Members(slots[2..2]) == {};
      for i := 2 to MAX_CLIENTS
        invariant StopsAt(slots, peers, 2) == StopsAt(slots, peers, i)
        invariant wire == P.Broadcast(old(wire), Members(slots[2..i]), s)
      {
        var fd := fds[i];
        NextMember(slots, i);
        if fd != -1 {
          if fd !in peers {
            return false;
          }
          Write(fd, m, flag, loop, stamp);
        }
      }
      return true;
    }

    /** One phase for a new client: the entries with the flag of the moment, then a closing
        NONE with the flag of the phase. `ms` are the messages written for the entries. */
    method UpdateNewClient(e: EntryList, m: SyncMsg, ghost stamp: Tables)
      returns (ghost ms: seq<Msg>, ghost sent: seq<P.Sent>)
      requires e.Valid() && this !in e.Repr && m !in e.Repr && m.body !in e.Repr && AllPrintable(e.l, e.rows)
      requires m.body.Length == BODY_LEN
      modifies this`synchronized, m, m.body
      ensures synchronized == Flag(e.l) && |ms| == |e.rows| && Overwrites(e.l, e.rows, old(m.Value()), ms)
      ensures m.Value() == Closing(old(m.Value()), ms)
      ensures sent == PhaseOf(ms, old(m.Value()), old(synchronized), synchronized, stamp)
    {
      ms := SendEntries(e, m);
      sent := P.Stamped(ms, synchronized, stamp);
      m.opCode := NONE;
      synchronized := Flag(e.l);
      sent := sent + [P.Sent(P.Packet(m.Value(), synchronized, 1), stamp)];
    }

    /** The two permanent descriptors are in place. */
    ghost predicate Listening()
      reads this, fds
    {
      conn > 0 && fds.Length == MAX_CLIENTS && fds[0] == 0 && fds[1] == conn
    }

    /** Every entry fits the command buffer it is printed into. */
    ghost predicate Printable()
      reads this, routingTable, macList
    {
      AllPrintable(L3, routingTable.rows) && AllPrintable(L2, macList.rows)
    }

    /** A new client: a slot, its process id, and both tables, if it is still there. */
    method HandleConnect(fd: int, pid: int, present: bool)
      requires Valid() && Printable() && Listening() && status == P.UP
      requires P.Acceptable(Abs(), fd)
      modifies this`wire, this`synchronized, this`status, fds, pids
      ensures Valid()
      ensures Abs() == if present then P.OnConnect(old(Abs()), fd, pid) else P.OnLost(old(Abs()), fd, pid)
    {
      if present {
        Admit(fd, pid);
      } else {
        Lose(fd, pid);
      }
    }

    method Admit(fd: int, pid: int)
      requires Valid() && Printable() && Listening() && status == P.UP && P.Acceptable(Abs(), fd)
      modifies this`wire, this`synchronized, fds, pids
      ensures Valid() && Abs() == P.OnConnect(old(Abs()), fd, pid)
    {
      ghost var sent := Welcome();
      Register(fd, pid, sent);
    }

    /** The first write of the welcome ends the server. */
    method Lose(fd: int, pid: int)
      requires Valid() && Listening() && status == P.UP && P.Acceptable(Abs(), fd)
      modifies this`wire, this`status, fds, pids
      ensures Valid() && Abs() == P.OnLost(old(Abs()), fd, pid)
    {
      Register(fd, pid, []);
      status := P.CRASHED;
      Kept(routingTable);
      Kept(macList);
    }

    method Register(fd: int, pid: int, ghost sent: seq<P.Sent>)
      requires Valid() && Listening()
      requires fd > 0 && fd != conn && fd !in wire
      modifies this`wire, fds, pids
      ensures Valid() && Abs() == P.Admit(old(Abs()), fd, pid, sent)
    {
      Record(fd, pid);
      wire := wire[fd := sent];
      Kept(routingTable);
      Kept(macList);
    }

    method Record(fd: int, pid: int)
      requires Listening() && fds != pids && Distinct(fds[..]) && Slots.Clients(fds[..]) <= wire.Keys
      requires fd > 0 && fd != conn && fd !in wire
      modifies fds, pids
      ensures fds[..] == AddFd(old(fds[..]), fd) && pids[..] == AddFd(old(pids[..]), pid)
      ensures Distinct(fds[..]) && Slots.Clients(fds[..]) <= wire.Keys + {fd}
    {
      assert fds[..][0] == 0 && fds[..][1] == conn;
      AddClient(fds[..], conn, fd);
      AddToMonitoredFdSet(fds, fd);
      AddToMonitoredFdSet(pids, pid);
    }

    /** The first phase, into a new message. */
    method SendRoutes(ghost t: Tables) returns (m: SyncMsg, ghost ms: seq<Msg>, ghost sent: seq<P.Sent>)
      requires routingTable.Valid() && routingTable.l == L3 && this !in routingTable.Repr
      requires AllPrintable(L3, routingTable.rows)
      modifies this`synchronized
      ensures fresh(m) && fresh(m.body) && m.body.Length == BODY_LEN && synchronized == P.RT
      ensures |ms| == |routingTable.rows| && Overwrites(L3, routingTable.rows, BLANK, ms)
      ensures m.Value() == Closing(BLANK, ms) && sent == PhaseOf(ms, BLANK, P.WAIT, P.RT, t)
    {
      m := new SyncMsg();
      synchronized := P.WAIT;
      Kept(routingTable);
      ms, sent := UpdateNewClient(routingTable, m, t);
    }

    /** Both phases, with one message for all entries. */
    method SendTables(ghost t: Tables) returns (ghost ms: seq<Msg>, ghost ns: seq<Msg>, ghost sent: seq<P.Sent>)
      requires routingTable.Valid() && routingTable.l == L3 && this !in routingTable.Repr
      requires macList.Valid() && macList.l == L2 && this !in macList.Repr
      requires Printable()
      modifies this`synchronized
      ensures |ms| == |routingTable.rows| && Overwrites(L3, routingTable.rows, BLANK, ms)
      ensures |ns| == |macList.rows| && Overwrites(L2, macList.rows, Closing(BLANK, ms), ns)
      ensures sent == BothPhases(ms, ns, t)
    {
      var m;
      m, ms, sent := SendRoutes(t);
      Kept(macList);
      ghost var more;
      ns, more := UpdateNewClient(macList, m, t);
      sent := sent + more;
    }

    method Welcome() returns (ghost sent: seq<P.Sent>)
      requires Valid() && Printable()
      modifies this`synchronized
      ensures Valid() && Abs() == old(Abs()) && sent == P.Welcome(Contents())
    {
      ghost var ms, ns;
      ms, ns, sent := SendTables(Contents());
      BothPhasesWelcome(routingTable.rows, macList.rows, ms, ns);
      Kept(routingTable);
      Kept(macList);
    }

    /** A message that is not part of the tables. */
    ghost predicate Separate(m: SyncMsg)
      reads this, routingTable, macList
    {
      m.body.Length == BODY_LEN && m !in Lists() && m.body !in Lists()
    }

    /** Applies a message to the table it is for, as long as that has a meaning. */
    method Process(m: SyncMsg) returns (ok: bool)
      requires Valid() && Separate(m) && Addressed(m.Value())
      modifies Lists()
      ensures Valid() && fresh(Lists() - old(Lists()) - {m.body})
      ensures ok == old(Defined(Contents(), m.Value()))
      ensures Contents() == if ok then Apply(old(Contents()), Effect(old(m.Value()))) else old(Contents())
    {
      OneTable(Contents(), m.Value());
      if m.lCode == L3 {
        ok := routingTable.ProcessSyncMesg(m);
        Kept(macList);
      } else {
        ok := macList.ProcessSyncMesg(m);
        Kept(routingTable);
      }
    }

    /** Tells the clients about a message that has been applied. */
    method Announce(m: SyncMsg, peers: set<int>)
      requires Valid() && status == P.UP && m.body.Length == BODY_LEN
      modifies this`wire, this`synchronized, this`status
      ensures Valid() && Abs() == P.Send(old(Abs()), peers, P.Update(m.Value(), old(Contents())))
    {
      synchronized := if m.lCode == L3 then P.RT else P.ML;
      var survived := Broadcast(m, synchronized, 1, peers, Contents());
      if !survived {
        status := P.CRASHED;
      }
      Kept(routingTable);
      Kept(macList);
    }

    /** Applies a message and passes it on to the clients. */
    method Publish(m: SyncMsg, peers: set<int>)
      requires Valid() && status == P.UP && Separate(m) && Addressed(m.Value())
      modifies this`wire, this`synchronized, this`status, Lists()
      ensures Valid() && Abs() == P.OnMessage(old(Abs()), peers, old(m.Value()))
      ensures fresh(Lists() - old(Lists()) - {m.body})
    {
      var ok := Process(m);
      if ok {
        Announce(m, peers);
      } else {
        Crash();
      }
    }

    method Crash()
      requires Valid() && status == P.UP
      modifies this`status
      ensures Valid() && Abs() == old(Abs()).(status := P.CRASHED)
    {
      status := P.CRASHED;
      Kept(routingTable);
      Kept(macList);
    }

    /** The body of a FLUSH: both lists are emptied and replaced. */
    method FlushTables()
      requires Valid() && status == P.UP
      modifies Lists()
      ensures Valid() && Abs() == old(Abs()).(tables := EMPTY)
      ensures fresh(Lists() - old(Lists()))
    {
      routingTable.Reset();
      Kept(macList);
      macList.Reset();
    }

    method Empty(m: SyncMsg, peers: set<int>)
      requires Valid() && status == P.UP && Separate(m) && Addressed(m.Value())
      modifies this`wire, this`synchronized, this`status, Lists()
      ensures Valid() && Abs() == P.OnOutcome(old(Abs()), peers, Flushed, old(m.Value()))
      ensures fresh(Lists() - old(Lists()) - {m.body})
    {
      FlushTables();
      Publish(m, peers);
    }

    /** What follows from the outcome of parsing. */
    method Act(r: Outcome, m: SyncMsg, peers: set<int>) returns (ghost added: set<object>)
      requires Valid() && status == P.UP && Separate(m)
      requires r == Accepted || r == Flushed ==> Addressed(m.Value())
      modifies this`wire, this`synchronized, this`status, Lists()
      ensures Valid() && Abs() == P.OnOutcome(old(Abs()), peers, r, old(m.Value()))
      ensures Lists() <= old(Lists()) + added + {m.body} && fresh(added)
    {
      ghost var lists := Lists();
      match r {
        case Undefined => Crash();
        case Rejected =>
        case Flushed => Empty(m, peers);
        case Accepted => Publish(m, peers);
      }
      added := Lists() - lists - {m.body};
    }

    /** A flush signals the recorded processes before anything else. */
    method Signal(r: Outcome) returns (signalled: set<int>)
      ensures signalled == if r == Flushed then Members(pids[..]) else {}
    {
      signalled := {};
      if r == Flushed {
        signalled := FlushClients(pids);
      }
    }

    /** A line from the operator. `signalled` are the processes told to flush, `added` the
        memory that the lists may have gained. */
    method HandleCommand(raw: seq<char>, stored: bool, peers: set<int>)
      returns (flushed: bool, signalled: set<int>, ghost added: set<object>)
      requires Valid() && status == P.UP
      modifies this`wire, this`synchronized, this`status, Lists()
      ensures Valid() && Abs() == P.OnCommand(old(Abs()), peers, raw, stored)
      ensures flushed <==> P.ParseLine(raw, stored).0 == Flushed
      ensures signalled == if flushed then Members(pids[..]) else {}
      ensures Lists() <= old(Lists()) + added && fresh(added)
    {
      var r, m;
      ghost var own;
      r, m, own := ReadCommand(raw, stored);
      Untouched(this);
      signalled := Signal(r);
      added := Act(r, m, peers);
      added := added + own;
      flushed := r == Flushed;
    }

    /** A client that has said goodbye loses its slot and its socket. */
    method Dismiss(fd: int)
      requires Valid() && Listening() && fd in Slots.Clients(fds[..])
      modifies this`wire, fds
      ensures Valid() && Listening() && Abs() == P.OnDone(old(Abs()), fd)
    {
      assert fds[..][0] == 0 && fds[..][1] == conn;
      RemoveClient(fds[..], conn, fd);
      RemoveFromMonitoredFdSet(fds, fd);
      wire := wire - {fd};
      Kept(routingTable);
      Kept(macList);
      assert fds[0] == fds[..][0] && fds[1] == fds[..][1];
    }

    /** One pass over the clients with something to say; `gone` are those that said 1. */
    method HandleClients(ready: set<int>, said: map<int, int>) returns (ghost gone: seq<int>)
      requires Valid() && Listening() && ready <= said.Keys
      modifies this`wire, fds
      ensures Valid() && Listening() && Abs() == P.OnAllDone(old(Abs()), gone)
      ensures gone == Gone(old(fds[..]), ready, said, MAX_CLIENTS)
    {
      gone := [];
      ghost var slots, sv := fds[..], Abs();
      for i := 2 to MAX_CLIENTS
        invariant Valid() && Listening() && Abs() == P.OnAllDone(sv, gone)
        invariant forall j | i <= j < MAX_CLIENTS :: fds[j] == slots[j]
        invariant gone == Gone(slots, ready, said, i)
      {
        gone := HearSlot(i, ready, said, slots, gone, sv);
      }
    }

    method HearSlot(i: nat, ready: set<int>, said: map<int, int>, ghost slots: seq<int>, ghost gone: seq<int>,
                    ghost sv: P.Server)
      returns (ghost gone': seq<int>)
      requires Valid() && Listening() && ready <= said.Keys && 2 <= i < MAX_CLIENTS
      requires |slots| == MAX_CLIENTS && fds[i] == slots[i] && gone == Gone(slots, ready, said, i)
      requires Abs() == P.OnAllDone(sv, gone)
      modifies this`wire, fds
      ensures Valid() && Listening() && Abs() == P.OnAllDone(sv, gone')
      ensures gone' == Gone(slots, ready, said, i + 1)
      ensures forall j | 2 <= j < MAX_CLIENTS && j != i :: fds[j] == old(fds[j])
    {
      gone' := gone;
      if fds[i] != -1 && fds[i] in ready && said[fds[i]] == 1 {
        OneMoreDone(sv, gone, fds[i]);
        gone' := gone + [fds[i]];
        DismissSlot(i);
      }
    }

    method DismissSlot(i: nat)
      requires Valid() && Listening() && 2 <= i < MAX_CLIENTS && fds[i] != -1
      modifies this`wire, fds
      ensures Valid() && Listening() && Abs() == P.OnDone(old(Abs()), old(fds[i]))
      ensures forall j | 2 <= j < MAX_CLIENTS && j != i :: fds[j] == old(fds[j])
    {
      Occupied(fds[..], i);
      ghost var slots := fds[..];
      Dismiss(fds[i]);
      assert fds[..] == slots[i := -1];
    }

    /** SIGINT: every client is told to stop, by a message of which only the operation is
        set. Then the lists are emptied and the process ends. */
    method HandleInterrupt(m: SyncMsg, peers: set<int>)
      requires Valid() && Listening() && status == P.UP
      requires m.opCode == NONE && Separate(m)
      modifies this`wire, this`status, this`last, fds, Lists()
      ensures Valid() && Abs() == P.OnInterrupt(old(Abs()), peers, old(m.Value()))
      ensures status == P.STOPPED ==> Contents() == EMPTY
      ensures Lists() == old(Lists())
    {
      var survived := Broadcast(m, P.WAIT, 0, peers, Contents());
      if survived {
        CleanUp();
      } else {
        status := P.CRASHED;
        Kept(routingTable);
        Kept(macList);
      }
    }

    method CleanUp()
      requires Valid() && Listening() && status == P.UP
      modifies this`status, this`last, fds, Lists()
      ensures Valid() && Contents() == EMPTY && Lists() == old(Lists())
      ensures Abs() == old(Abs()).(status := P.STOPPED, slots := RemoveFd(old(Abs()).slots, conn))
    {
      Retire();
      label Retired:
      CloseMaster();
      Kept@Retired(routingTable);
      Kept@Retired(macList);
    }

    /** From here on the lists are empty. */
    method Retire()
      requires Valid() && status == P.UP
      modifies this`status, this`last, Lists()
      ensures Valid() && Contents() == EMPTY && Lists() == old(Lists())
      ensures Abs() == old(Abs()).(status := P.STOPPED)
    {
      ghost var t := Contents();
      EmptyTables();
      label Emptied:
      last, status := t, P.STOPPED;
      Kept@Emptied(routingTable);
      Kept@Emptied(macList);
    }

    method EmptyTables()
      requires Valid()
      modifies Lists()
      ensures Valid() && Contents() == EMPTY && Lists() == old(Lists())
    {
      routingTable.Deinit();
      Kept(macList);
      macList.Deinit();
    }

    method CloseMaster()
      requires Listening() && Distinct(fds[..]) && Slots.Clients(fds[..]) <= wire.Keys
      modifies fds
      ensures fds[..] == RemoveFd(old(fds[..]), conn)
      ensures Distinct(fds[..]) && Slots.Clients(fds[..]) <= wire.Keys
    {
      RemoveKeeps(fds[..], conn);
      RemoveFirst(fds[..], conn);
      RemoveFromMonitoredFdSet(fds, conn);
    }
  }

  /** A descriptor in slot 1 is not that of a client. */
  lemma RemoveFirst(slots: seq<int>, conn: int)
    requires |slots| == MAX_CLIENTS && conn > 0 && slots[0] == 0 && slots[1] == conn
    ensures Slots.Clients(RemoveFd(slots, conn)) == Slots.Clients(slots)
  {
    assert First(slots, conn) == 1;
    assert RemoveFd(slots, conn)[2..] == slots[2..];
  }

  lemma OneMoreDone(sv: P.Server, gone: seq<int>, fd: int)
    ensures P.OnAllDone(sv, gone + [fd]) == P.OnDone(P.OnAllDone(sv, gone), fd)
  {
    assert (gone + [fd])[..|gone|] == gone;
  }

  /** The clients that say goodbye, in the order of the slots from 2 up to the `i`-th. */
  function Gone(slots: seq<int>, ready: set<int>, said: map<int, int>, i: nat): seq<int>
    requires i <= |slots|
  {
    if i <= 2 then []
    else
      var fd := slots[i - 1];
      Gone(slots, ready, said, i - 1) + if fd != -1 && SaysGoodbye(fd, ready, said) then [fd] else []
  }

  predicate SaysGoodbye(fd: int, ready: set<int>, said: map<int, int>) {
    fd in ready && fd in said && said[fd] == 1
  }

  /** Exactly the registered clients that are ready and said 1, each once. */
  lemma {:induction false} GoneAre(slots: seq<int>, ready: set<int>, said: map<int, int>, i: nat)
    requires 2 <= i <= |slots| && Distinct(slots)
    ensures var gone := Gone(slots, ready, said, i);
            && (forall fd :: fd in gone <==>
                  fd in Members(slots[2..i]) && fd in ready && fd in said && said[fd] == 1)
            && (forall j, k | 0 <= j < k < |gone| :: gone[j] != gone[k])
  {
    if i > 2 {
      GoneAre(slots, ready, said, i - 1);
      NextMember(slots, i - 1);
    }
  }

  /** What happens outside its memory does not change the server. */
  twostate lemma Untouched(s: Server)
    requires old(s.Valid()) && unchanged(s) && unchanged(s.fds) && unchanged(s.pids)
    requires forall x | x in old(s.Lists()) :: unchanged(x)
    ensures s.Valid() && s.Abs() == old(s.Abs()) && s.Lists() == old(s.Lists())
  {
    Kept(s.routingTable);
    Kept(s.macList);
  }

  /** flush_clients: SIGUSR1 to every recorded process. */
  method FlushClients(pids: array<int>) returns (signalled: set<int>)
    ensures signalled == Members(pids[..])
  {
    signalled := {};
    for i := 0 to pids.Length
      invariant signalled == Members(pids[..i])
    {
      assert pids[..i + 1] == pids[..i] + [pids[i]];
      MembersSnoc(pids[..i], pids[i]);
      var pid := pids[i];
      if pid != -1 {
        signalled := signalled + {pid};
      }
    }
    assert pids[..pids.Length] == pids[..];
  }

  /** Parses a line into a message of its own. */
  method ReadCommand(raw: seq<char>, stored: bool) returns (r: Outcome, m: SyncMsg, ghost own: set<object>)
    ensures own == {m, m.body} && fresh(own) && m.body.Length == BODY_LEN
    ensures (r, m.Value()) == P.ParseLine(raw, stored)
    ensures r == Accepted || r == Flushed ==> Addressed(m.Value())
  {
    m := new SyncMsg();
    own := {m, m.body};
    r := CreateSyncMessage(P.Line(raw), m, false, stored);
    ParseReady(WordsOf(P.Line(raw)), stored);
  }

  /** The loop of update_new_client: every entry is printed into the command buffer,
      parsed into the one message and written. `ms` is what has been written. */
  method SendEntries(e: EntryList, m: SyncMsg) returns (ghost ms: seq<Msg>)
    requires e.Valid() && m !in e.Repr && m.body !in e.Repr && AllPrintable(e.l, e.rows)
    requires m.body.Length == BODY_LEN
    modifies m, m.body
    ensures |ms| == |e.rows| && Overwrites(e.l, e.rows, old(m.Value()), ms)
    ensures m.Value() == Before(old(m.Value()), ms, |ms|)
  {
    ms := [];
    var node := e.list.head.next;
    while node != e.list.head
      invariant e.Valid() && e.Found(node, |ms|)
      invariant Overwrites(e.l, e.rows, old(m.Value()), ms) && m.Value() == Before(old(m.Value()), ms, |ms|)
      decreases |e.rows| - |ms|
    {
      node := SendEntry(e, node, |ms|, m);
      OverwritesSnoc(e.l, e.rows, old(m.Value()), ms, m.Value());
      ms := ms + [m.Value()];
    }
  }

  method SendEntry(e: EntryList, node: Node<array<char>>, ghost k: nat, m: SyncMsg) returns (next: Node<array<char>>)
    requires e.Valid() && m !in e.Repr && m.body !in e.Repr && AllPrintable(e.l, e.rows)
    requires k < |e.rows| && e.Found(node, k) && m.body.Length == BODY_LEN
    modifies m, m.body
    ensures e.Valid() && e.Found(next, k + 1)
    ensures m.Value() == EntryMessage(e.l, e.rows[k], old(m.Value()))
  {
    next := e.Next(node, k);
    assert node.data == e.list.items[k] && node.data[..] == e.rows[k];
    var operation;
    if e.l == L3 {
      operation := PrintRoute(RouteOf(node.data[..]));
    } else {
      operation := PrintMac(MacOf(node.data[..]));
    }
    assert |operation| < OP_LEN;
    m.opCode := CREATE;
    var _ := CreateSyncMessage(operation, m, true, true);
    Kept(e);
  }

  method FirstFdSet(conn: int) returns (fds: array<int>)
    ensures fresh(fds) && fds[..] == P.Init(conn).server.slots
  {
    fds := NewFdSet();
    AddToMonitoredFdSet(fds, 0);
    AddToMonitoredFdSet(fds, conn);
  }

  method NewFdSet() returns (fds: array<int>)
    ensures fresh(fds) && fds[..] == P.FreeSlots()
  {
    fds := new int[MAX_CLIENTS](_ => -1);
    assert fds[..] == P.FreeSlots();
  }

  lemma Occupied(slots: seq<int>, i: nat)
    requires 2 <= i < |slots| && Distinct(slots) && slots[i] != -1
    ensures slots[i] in Slots.Clients(slots) && First(slots, slots[i]) == i
  {
    assert slots[2..][i - 2] == slots[i];
  }

  /** The loop meets a descriptor it has not met before. */
  lemma NextMember(slots: seq<int>, i: nat)
    requires 2 <= i < |slots| && Distinct(slots)
    ensures Members(slots[2..i + 1]) == Members(slots[2..i]) + if slots[i] != -1 then {slots[i]} else {}
    ensures slots[i] != -1 ==> slots[i] in Slots.Clients(slots) && slots[i] !in Members(slots[2..i])
  {
    assert slots[2..i + 1] == slots[2..i] + [slots[i]];
    MembersSnoc(slots[2..i], slots[i]);
    assert slots[2..][i - 2] == slots[i];
  }
}
