/** The client in memory: its two tables, the handler of the signal, and the loop that
    receives packets. */
module ClientProcess {
  import opened Message
  import opened Table
  import opened Slots
  import opened Sync
  import opened Store
  import P = Protocol
  import opened Runs
  import Replication

  /** What the process gets to see: a packet, the end of file, or SIGUSR1. */
  datatype Event = Arrives(packet: P.Packet) | Ends | Flushes

  /** A client that is killed is gone; `running` is the flag of its loop. */
  datatype Life = Dead | Alive(tables: Tables, running: bool)

  /** What an event does to it. One that has left its loop has exited. */
  function React(l: Life, e: Event): Life {
    if l.Dead? || !l.running then l
    else
      match e
      case Arrives(p) =>
        if Defined(l.tables, p.msg) then Alive(Apply(l.tables, Effect(p.msg)), p.loop != 0) else Dead
      case Ends => Alive(Apply(l.tables, Effect(BLANK)), true)
      case Flushes => Alive(EMPTY, true)
  }

  /** What the first `n` events make of it. */
  function Lived(l: Life, es: seq<Event>, n: nat): Life
    requires n <= |es|
  {
    if n == 0 then l else React(Lived(l, es, n - 1), es[n - 1])
  }

  class Client {
    var routingTable: EntryList
    var macList: EntryList
    var loop: int
    var killed: bool

    ghost predicate Valid()
      reads this, routingTable, macList, routingTable.Repr, macList.Repr
    {
      && routingTable.Valid() && routingTable.l == L3
      && macList.Valid() && macList.l == L2
      && routingTable.Repr !! macList.Repr
      && this !in Lists()
    }

    ghost function Lists(): set<object>
      reads this, routingTable, macList
    {
      routingTable.Repr + macList.Repr
    }

    ghost function Contents(): Tables
      reads this, routingTable, macList
    {
      Tables(Routes(routingTable.rows), Macs(macList.rows))
    }

    ghost function Now(): Life
      reads this, routingTable, macList
    {
      if killed then Dead else Alive(Contents(), loop != 0)
    }

    constructor ()
      ensures Valid() && Now() == Alive(EMPTY, true) && fresh(Lists())
    {
      routingTable := new EntryList(L3);
      macList := new EntryList(L2);
      loop, killed := 1, false;
    }

    /** SIGUSR1 */
    method HandleFlush()
      requires Valid() && !killed && loop != 0
      modifies Lists()
      ensures Valid() && fresh(Lists() - old(Lists()))
      ensures Now() == React(old(Now()), Flushes)
    {
      routingTable.Reset();
      Kept(macList);
      macList.Reset();
    }

    /** `ok` fails where C gives no meaning to it. */
    method Process(m: SyncMsg) returns (ok: bool)
      requires Valid() && Separate(m) && Addressed(m.Value())
      modifies Lists()
      ensures Valid() && fresh(Lists() - old(Lists()) - {m.body})
      ensures ok == old(Defined(Contents(), m.Value()))
      ensures ok ==> Contents() == Apply(old(Contents()), Effect(old(m.Value())))
    {
      OneTable(Contents(), m.Value());
      if m.lCode == L3 {
        ok := routingTable.ProcessSyncMesg(m);
        Kept(macList);
      } else {
        ok := macList.ProcessSyncMesg(m);
        Kept(routingTable);
      }
    }

    /** A message that is not part of the tables. */
    ghost predicate Separate(m: SyncMsg)
      reads this, routingTable, macList
    {
      m.body.Length == BODY_LEN && m !in Lists() && m.body !in Lists()
    }

    /** What is done with a message that has been read, with the loop flag `flag`. */
    method Digest(m: SyncMsg, flag: int)
      requires Valid() && Separate(m) && Addressed(m.Value())
      modifies this`loop, this`killed, Lists()
      ensures Valid() && fresh(Lists() - old(Lists()) - {m.body})
      ensures Now() == if old(Defined(Contents(), m.Value()))
                       then Alive(Apply(old(Contents()), Effect(old(m.Value()))), flag != 0) else Dead
      ensures loop == flag
    {
      var ok := Process(m);
      label Processed:
      loop, killed := flag, !ok;
      Kept@Processed(routingTable);
      Kept@Processed(macList);
    }

    /** One pass of the loop. The message is new in every pass: its body may become an entry. */
    method Receive(p: P.Packet)
      requires Valid() && Addressed(p.msg) && !killed && loop != 0
      modifies this`loop, this`killed, Lists()
      ensures Valid() && fresh(Lists() - old(Lists()))
      ensures Now() == React(old(Now()), Arrives(p)) && (!killed ==> loop == p.loop)
    {
      var m := MessageOf(p.msg);
      Untouched(this);
      Digest(m, p.loop);
    }

    /** A pass in which the reads meet the end of file: it goes on with what is there before
        they are made, a message fresh from `calloc` and the old flag. */
    method ReceiveEnd()
      requires Valid() && !killed && loop != 0
      modifies this`loop, this`killed, Lists()
      ensures Valid() && fresh(Lists() - old(Lists()))
      ensures Now() == React(old(Now()), Ends) && !killed && loop == old(loop)
    {
      NothingRead(Contents(), loop);
      Receive(P.Packet(BLANK, P.WAIT, loop));
    }

    /** Where the process stands after `n` events. */
    ghost predicate Stands(start: Life, es: seq<Event>, n: nat)
      requires n <= |es|
      reads this, routingTable, macList, routingTable.Repr, macList.Repr
    {
      Valid() && Now() == Lived(start, es, n)
    }

    /** Event number `n`. `memory` is what the lists may consist of. */
    method Step(es: seq<Event>, n: nat, ghost start: Life, ghost memory: set<object>)
      returns (next: nat, ghost memory': set<object>)
      requires n < |es| && Stands(start, es, n) && !killed && loop != 0 && Acceptable(es[n])
      requires Lists() <= memory
      modifies this`loop, this`killed, Lists()
      ensures next == n + 1 && Stands(start, es, next)
      ensures Lists() <= memory' && fresh(memory' - memory)
    {
      match es[n] {
        case Arrives(p) => Receive(p);
        case Ends => ReceiveEnd();
        case Flushes => HandleFlush();
      }
      next, memory' := n + 1, memory + Lists();
    }

    /** The loop, with the signals that arrive between its passes. */
    method Run(es: seq<Event>)
      requires Valid() && forall i | 0 <= i < |es| :: Acceptable(es[i])
      modifies this`loop, this`killed, Lists()
      ensures Valid() && Now() == Lived(old(Now()), es, |es|)
    {
      var n := 0;
      ghost var lists, start := Lists(), Now();
      ghost var memory := lists;
      while loop != 0 && !killed && n < |es|
        invariant n <= |es| && Stands(start, es, n)
        invariant Lists() <= memory && fresh(memory - lists)
        decreases |es| - n
      {
        assert Acceptable(es[n]);
        n, memory := Step(es, n, start, memory);
      }
      Idle(start, es, n, |es|);
    }
  }

  /** A packet whose strings, but for an interface name, end inside their fields. */
  predicate Acceptable(e: Event) {
    e.Arrives? ==> Addressed(e.packet.msg)
  }

  lemma {:induction false} Idle(start: Life, es: seq<Event>, n: nat, k: nat)
    requires n <= k <= |es|
    requires n < |es| ==> var l := Lived(start, es, n); l.Dead? || !l.running
    ensures Lived(start, es, k) == Lived(start, es, n)
  {
    if n < k {
      Idle(start, es, n, k - 1);
    }
  }

  /** What happens outside its memory does not change the client. */
  twostate lemma Untouched(c: Client)
    requires old(c.Valid()) && unchanged(c) && forall x | x in old(c.Lists()) :: unchanged(x)
    ensures c.Valid() && c.Contents() == old(c.Contents()) && c.Lists() == old(c.Lists())
  {
    Kept(c.routingTable);
    Kept(c.macList);
  }

  lemma NothingRead(t: Tables, flag: int)
    requires flag != 0
    ensures var l, p := Alive(t, true), P.Packet(BLANK, P.WAIT, flag);
            React(l, Arrives(p)) == React(l, Ends) && React(l, Ends).Alive? && Addressed(BLANK)
  {
    BlankClean();
    CleanIsReadable(BLANK.body);
    ReadyDefined(t, BLANK);
  }

  // ----- In its place in the system -----

  function LifeOf(s: P.State, fd: int): Life {
    if fd in s.clients then Alive(s.clients[fd].tables, s.clients[fd].running) else Dead
  }

  /** What the client sees of a step. */
  function Seen(s: P.State, fd: int, step: P.Step): seq<Event> {
    match step
    case Deliver(g) =>
      if g == fd && fd in s.server.wire && s.server.wire[fd] != [] then [Arrives(s.server.wire[fd][0].packet)] else []
    case EndOfFile(g) => if g == fd then [Ends] else []
    case Command(raw, stored) =>
      if P.ParseLine(raw, stored).0 == Flushed && fd in s.clients && s.clients[fd].pid in Members(s.server.pids)
      then [Flushes] else []
    case _ => []
  }

  ghost function AllSeen(s: P.State, fd: int, steps: seq<P.Step>): seq<Event>
    requires Legal(s, steps)
    decreases |steps|
  {
    if steps == [] then [] else Seen(s, fd, steps[0]) + AllSeen(P.Next(s, steps[0]), fd, steps[1..])
  }

  /** The steps are about one client: it does not leave of its own accord, and if it is
      killed no other gets its descriptor. */
  predicate OneLife(fd: int, steps: seq<P.Step>) {
    forall step | step in steps :: step != P.Leave(fd) && !(step.Connect? && step.fd == fd)
  }

  /** The protocol and the process agree on what a step does to a client. */
  lemma StepLife(s: P.State, fd: int, step: P.Step)
    requires P.Inv(s) && P.Enabled(s, step) && OneLife(fd, [step])
    ensures var seen := Seen(s, fd, step);
            LifeOf(P.Next(s, step), fd) == if seen == [] then LifeOf(s, fd) else React(LifeOf(s, fd), seen[0])
  {
    assert step in [step];
  }

  lemma StepAcceptable(s: P.State, fd: int, step: P.Step)
    requires P.Inv(s) && P.Enabled(s, step)
    ensures forall e | e in Seen(s, fd, step) :: Acceptable(e)
  {
    if step == P.Deliver(fd) {
      assert P.WireInv(s.server.status, s.server.wire[fd]);
    }
  }

  lemma {:induction false} LivedAppend(l: Life, a: seq<Event>, b: seq<Event>, n: nat)
    requires n <= |b|
    ensures Lived(l, a + b, |a| + n) == Lived(Lived(l, a, |a|), b, n)
    decreases n
  {
    if n == 0 {
      LivedPrefix(l, a, b, |a|);
    } else {
      LivedAppend(l, a, b, n - 1);
    }
  }

  lemma {:induction false} LivedPrefix(l: Life, a: seq<Event>, b: seq<Event>, n: nat)
    requires n <= |a|
    ensures Lived(l, a + b, n) == Lived(l, a, n)
  {
    if n > 0 {
      LivedPrefix(l, a, b, n - 1);
    }
  }

  /** On every run, while the server is up and after, and whatever is lost to a flush or to a
      kill: the protocol's client is what the process makes of the events it sees. */
  lemma {:induction false} RunLife(s: P.State, fd: int, steps: seq<P.Step>)
    requires P.Inv(s) && Legal(s, steps) && OneLife(fd, steps)
    ensures var es := AllSeen(s, fd, steps);
            && LifeOf(After(s, steps), fd) == Lived(LifeOf(s, fd), es, |es|)
            && forall e | e in es :: Acceptable(e)
    decreases |steps|
  {
    if steps != [] {
      var s1 := P.Next(s, steps[0]);
      P.StepInv(s, steps[0]);
      StepLife(s, fd, steps[0]);
      StepAcceptable(s, fd, steps[0]);
      RunLife(s1, fd, steps[1..]);
      LivedOn(LifeOf(s, fd), Seen(s, fd, steps[0]), AllSeen(s1, fd, steps[1..]));
    }
  }

  lemma LivedOn(l: Life, a: seq<Event>, b: seq<Event>)
    requires |a| <= 1
    ensures Lived(l, a + b, |a + b|) == Lived(if a == [] then l else React(l, a[0]), b, |b|)
  {
    LivedAppend(l, a, b, |b|);
    FirstLived(l, a);
  }

  lemma FirstLived(l: Life, a: seq<Event>)
    requires |a| <= 1
    ensures Lived(l, a, |a|) == if a == [] then l else React(l, a[0])
  {
    if a != [] {
      assert Lived(l, a, 0) == l;
    }
  }

  /** The program, from its start: the process that connects and sees what a client sees of
      any run is that client at the end of the run. */
  method RunClient(es: seq<Event>, ghost s: P.State, ghost fd: int, ghost pid: int, ghost steps: seq<P.Step>)
    returns (client: Client)
    requires P.Inv(s) && P.Enabled(s, P.Connect(fd, pid))
    requires Legal(P.Next(s, P.Connect(fd, pid)), steps) && OneLife(fd, steps)
    requires es == AllSeen(P.Next(s, P.Connect(fd, pid)), fd, steps)
    ensures client.Valid()
    ensures client.Now() == LifeOf(After(P.Next(s, P.Connect(fd, pid)), steps), fd)
  {
    P.StepInv(s, P.Connect(fd, pid));
    RunLife(P.Next(s, P.Connect(fd, pid)), fd, steps);
    client := new Client();
    client.Run(es);
  }

  /** A client that reads what is under way to it replays it, unless it is killed. */
  lemma {:induction false} ReadingIsReplay(t: Tables, w: seq<P.Sent>, n: nat)
    requires n <= |w| && forall i | 0 <= i < n :: w[i].packet.loop != 0
    ensures Lived(Alive(t, true), Arriving(w), n) ==
              if Smooth(t, P.Msgs(w[..n])) then Alive(Replay(t, P.Msgs(w[..n])), true) else Dead
  {
    if n > 0 {
      ReadingIsReplay(t, w, n - 1);
      assert w[..n] == w[..n - 1] + [w[n - 1]];
      Replication.Appended(t, w[..n - 1], w[n - 1]);
    }
  }

  function Arriving(w: seq<P.Sent>): (es: seq<Event>)
    ensures |es| == |w| && forall i | 0 <= i < |w| :: es[i] == Arrives(w[i].packet)
  {
    seq(|w|, i requires 0 <= i < |w| => Arrives(w[i].packet))
  }
}
