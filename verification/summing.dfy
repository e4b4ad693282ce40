/** The two summing servers: the one that serves a client at a time, and the one that
    multiplexes up to 31 of them over a slot array with one running sum for each slot. */
module Summing {
  import opened Slots

  function Sum(s: seq<int>): int {
    if s == [] then 0 else Sum(s[..|s| - 1]) + s[|s| - 1]
  }

  lemma SumSnoc(s: seq<int>, x: int)
    ensures Sum(s + [x]) == Sum(s) + x
  {
    assert (s + [x])[..|s|] == s;
  }

  lemma {:induction false} SumUpdate(s: seq<int>, i: nat, x: int)
    requires i < |s|
    ensures Sum(s[i := x]) == Sum(s) - s[i] + x
  {
    var n := |s| - 1;
    if i < n {
      SumUpdate(s[..n], i, x);
      assert s[i := x][..n] == s[..n][i := x];
    } else {
      assert s[i := x][..n] == s[..n];
    }
  }

  // ----- One client at a time -----

  /** What arrives from a client that sends `stream` and closes: its `k`-th read yields the
      `k`-th value, and a read at the end yields a zeroed buffer. */
  function Read(stream: seq<int>, k: nat): int {
    if k < |stream| then stream[k] else 0
  }

  /** The number of values before the one that ends the session. */
  function Length(stream: seq<int>): (n: nat)
    ensures n <= |stream| && Read(stream, n) == 0
    ensures forall k | 0 <= k < n :: stream[k] != 0
  {
    if stream == [] || stream[0] == 0 then 0 else 1 + Length(stream[1..])
  }

  /** The promised answer: the sum of what precedes the first zero, or of everything. */
  function Answer(stream: seq<int>): int {
    Sum(stream[..Length(stream)])
  }

  lemma LengthIs(stream: seq<int>, n: nat)
    requires n <= |stream| && Read(stream, n) == 0 && forall k | 0 <= k < n :: stream[k] != 0
    ensures Length(stream) == n
  {
  }

  /** The inner loop of the single-client server. */
  method ReadAll(stream: seq<int>) returns (result: int)
    ensures result == Answer(stream)
  {
    result := 0;
    var k := 0;
    while true
      invariant k <= |stream| && result == Sum(stream[..k])
      invariant forall j | 0 <= j < k :: stream[j] != 0
      decreases |stream| - k
    {
      var data := Read(stream, k);
      if data == 0 {
        break;
      }
      assert stream[..k + 1] == stream[..k] + [data];
      SumSnoc(stream[..k], data);
      result := result + data;
      k := k + 1;
    }
    LengthIs(stream, k);
  }

  /** What a client sends, and whether its socket is still open when it is answered. Nobody
      catches SIGPIPE: the answer to a client that has gone kills the server. */
  datatype Caller = Caller(stream: seq<int>, waits: bool)

  /** The callers before the first that does not wait. */
  function Served(cs: seq<Caller>): (n: nat)
    ensures n <= |cs|
    ensures n < |cs| ==> !cs[n].waits
    ensures forall i | 0 <= i < n :: cs[i].waits
  {
    if cs == [] || !cs[0].waits then 0 else 1 + Served(cs[1..])
  }

  lemma ServedIs(cs: seq<Caller>, n: nat)
    requires n <= |cs| && (n < |cs| ==> !cs[n].waits) && forall i | 0 <= i < n :: cs[i].waits
    ensures Served(cs) == n
  {
  }

  function Answers(streams: seq<seq<int>>): (rs: seq<int>)
    ensures |rs| == |streams|
  {
    seq(|streams|, i requires 0 <= i < |streams| => Answer(streams[i]))
  }

  function StreamsOf(cs: seq<Caller>): (ss: seq<seq<int>>)
    ensures |ss| == |cs|
  {
    seq(|cs|, i requires 0 <= i < |cs| => cs[i].stream)
  }

  /** The outer loop: `result` starts anew for every client, and the first client that has
      gone before its answer is the last. */
  method ServeAll(cs: seq<Caller>) returns (results: seq<int>, up: bool)
    ensures results == Answers(StreamsOf(cs[..Served(cs)]))
    ensures up <==> forall i | 0 <= i < |cs| :: cs[i].waits
  {
    results := [];
    for i := 0 to |cs|
      invariant |results| == i && forall j | 0 <= j < i :: cs[j].waits && results[j] == Answer(cs[j].stream)
    {
      var result := ReadAll(cs[i].stream);
      if !cs[i].waits {
        ServedIs(cs, i);
        return results, false;
      }
      results := results + [result];
    }
    ServedIs(cs, |cs|);
    return results, true;
  }

  // ----- Many clients at a time -----

  /** An open socket: its client, and how much of what it sends has been read. */
  datatype Socket = Socket(caller: Caller, pos: nat)

  datatype Reply = Reply(stream: seq<int>, result: int)

  /** The two arrays, the open sockets, the replies so far, the sum of all values read, and
      whether the server is alive. */
  datatype Mux = Mux(fds: seq<int>, results: seq<int>, conn: int, sockets: map<int, Socket>,
                     replies: seq<Reply>, total: int, up: bool)

  function Accept(m: Mux, fd: int, c: Caller): Mux {
    m.(fds := AddFd(m.fds, fd), sockets := m.sockets[fd := Socket(c, 0)])
  }

  /** The body of the loop over the slots, for a slot that is ready. */
  function ReadSlot(m: Mux, i: nat): Mux
    requires i < |m.fds| && i < |m.results| && m.fds[i] in m.sockets
  {
    var fd := m.fds[i];
    var s := m.sockets[fd];
    var data := Read(s.caller.stream, s.pos);
    if data == 0 && !s.caller.waits then m.(up := false)
    else if data == 0 then
      m.(replies := m.replies + [Reply(s.caller.stream, m.results[i])], results := m.results[i := 0],
         fds := RemoveFd(m.fds, fd), sockets := m.sockets - {fd})
    else
      m.(results := m.results[i := m.results[i] + data], total := m.total + data,
         sockets := m.sockets[fd := Socket(s.caller, s.pos + 1)])
  }

  /** The first `i` passes of that loop. */
  function Swept(m: Mux, ready: set<int>, i: nat): Mux {
    if i == 0 then m else ServedSlot(Swept(m, ready, i - 1), ready, i - 1)
  }

  function ServedSlot(m: Mux, ready: set<int>, i: nat): Mux {
    if m.up && i < |m.fds| && i < |m.results| && m.fds[i] in ready && m.fds[i] in m.sockets
    then ReadSlot(m, i) else m
  }

  // ----- The invariant -----

  /** A slot with a client holds the sum of what that client has sent so far. */
  ghost predicate SlotInv(m: Mux, i: nat)
    requires i < |m.fds| && i < |m.results|
  {
    var fd := m.fds[i];
    if fd == -1 || i == 0 then m.results[i] == 0
    else
      && fd > 0 && fd != m.conn && fd in m.sockets
      && var s := m.sockets[fd];
         && s.pos <= |s.caller.stream|
         && (forall k | 0 <= k < s.pos :: s.caller.stream[k] != 0)
         && m.results[i] == Sum(s.caller.stream[..s.pos])
  }

  function Results(replies: seq<Reply>): (rs: seq<int>)
    ensures |rs| == |replies|
  {
    seq(|replies|, i requires 0 <= i < |replies| => replies[i].result)
  }

  ghost predicate Inv(m: Mux) {
    && |m.fds| == MAX_CLIENTS && |m.results| == MAX_CLIENTS
    && m.conn > 0 && m.fds[0] == m.conn && Distinct(m.fds)
    && (forall i | 0 <= i < MAX_CLIENTS :: SlotInv(m, i))
    && (forall i | 0 <= i < |m.replies| :: m.replies[i].result == Answer(m.replies[i].stream))
    && m.total == Sum(Results(m.replies)) + Sum(m.results)
  }

  lemma AcceptInv(m: Mux, fd: int, c: Caller)
    requires Inv(m) && fd > 0 && fd != m.conn && fd !in m.sockets
    ensures Inv(Accept(m, fd, c))
  {
    var m' := Accept(m, fd, c);
    forall i | 0 <= i < MAX_CLIENTS ensures SlotInv(m', i) {
      assert SlotInv(m, i);
    }
    forall i, j | 0 <= i < j < MAX_CLIENTS && m'.fds[i] != -1 ensures m'.fds[i] != m'.fds[j] {
      assert SlotInv(m, i) && SlotInv(m, j);
    }
  }

  lemma FirstOfDistinct(s: seq<int>, i: nat)
    requires i < |s| && Distinct(s) && s[i] != -1
    ensures First(s, s[i]) == i && RemoveFd(s, s[i]) == s[i := -1]
  {
  }

  lemma EndInv(m: Mux, i: nat)
    requires Inv(m) && i < MAX_CLIENTS && m.fds[i] != -1 && m.fds[i] != m.conn && m.fds[i] in m.sockets
    requires var s := m.sockets[m.fds[i]]; Read(s.caller.stream, s.pos) == 0 && s.caller.waits
    ensures Inv(ReadSlot(m, i))
  {
    var m', s := ReadSlot(m, i), m.sockets[m.fds[i]];
    assert SlotInv(m, i);
    FirstOfDistinct(m.fds, i);
    LengthIs(s.caller.stream, s.pos);
    SumUpdate(m.results, i, 0);
    assert Results(m'.replies) == Results(m.replies) + [m.results[i]];
    SumSnoc(Results(m.replies), m.results[i]);
    forall j | 0 <= j < MAX_CLIENTS ensures SlotInv(m', j) {
      assert SlotInv(m, j);
    }
  }

  lemma AddInv(m: Mux, i: nat)
    requires Inv(m) && i < MAX_CLIENTS && m.fds[i] != -1 && m.fds[i] != m.conn && m.fds[i] in m.sockets
    requires Read(m.sockets[m.fds[i]].caller.stream, m.sockets[m.fds[i]].pos) != 0
    ensures Inv(ReadSlot(m, i))
  {
    var m', s := ReadSlot(m, i), m.sockets[m.fds[i]];
    var stream := s.caller.stream;
    var data := Read(stream, s.pos);
    assert SlotInv(m, i);
    SumUpdate(m.results, i, m.results[i] + data);
    assert stream[..s.pos + 1] == stream[..s.pos] + [data];
    SumSnoc(stream[..s.pos], data);
    forall j | 0 <= j < MAX_CLIENTS ensures SlotInv(m', j) {
      assert SlotInv(m, j);
    }
  }

  lemma DownInv(m: Mux)
    requires Inv(m)
    ensures Inv(m.(up := false))
  {
    forall j | 0 <= j < MAX_CLIENTS ensures SlotInv(m.(up := false), j) {
      assert SlotInv(m, j);
    }
  }

  /** Serving a slot with a client keeps the invariant, whatever comes of it. */
  lemma ReadSlotInv(m: Mux, i: nat)
    requires Inv(m) && i < MAX_CLIENTS && m.fds[i] != -1 && m.fds[i] != m.conn
    ensures m.fds[i] in m.sockets && Inv(ReadSlot(m, i))
  {
    assert SlotInv(m, i);
    var s := m.sockets[m.fds[i]];
    if Read(s.caller.stream, s.pos) != 0 { AddInv(m, i); }
    else if s.caller.waits { EndInv(m, i); }
    else { DownInv(m); }
  }

  lemma {:induction false} SweptInv(m: Mux, ready: set<int>, i: nat)
    requires Inv(m) && i <= MAX_CLIENTS && -1 !in ready && m.conn !in ready
    ensures Inv(Swept(m, ready, i)) && Swept(m, ready, i).conn == m.conn
  {
    if i > 0 {
      SweptInv(m, ready, i - 1);
      var m' := Swept(m, ready, i - 1);
      if m'.up && m'.fds[i - 1] in ready {
        ReadSlotInv(m', i - 1);
      }
    }
  }

  // ----- Runs -----

  datatype Event = Connected(fd: int, caller: Caller) | Ready(fds: set<int>)

  /** `accept` yields a descriptor that is not open, and the loop over the slots is reached
      only when the master socket is not ready. */
  predicate Possible(m: Mux, e: Event) {
    m.up &&
    match e
    case Connected(fd, _) => fd > 0 && fd != m.conn && fd !in m.sockets
    case Ready(fds) => -1 !in fds && m.conn !in fds
  }

  function Next(m: Mux, e: Event): Mux {
    match e
    case Connected(fd, c) => Accept(m, fd, c)
    case Ready(fds) => Swept(m, fds, MAX_CLIENTS)
  }

  predicate Legal(m: Mux, es: seq<Event>)
    decreases |es|
  {
    es == [] || (Possible(m, es[0]) && Legal(Next(m, es[0]), es[1..]))
  }

  function After(m: Mux, es: seq<Event>): Mux
    decreases |es|
  {
    if es == [] then m else After(Next(m, es[0]), es[1..])
  }

  lemma {:induction false} RunInv(m: Mux, es: seq<Event>)
    requires Inv(m) && Legal(m, es)
    ensures Inv(After(m, es)) && After(m, es).conn == m.conn
    decreases |es|
  {
    if es != [] {
      match es[0] {
        case Connected(fd, c) => AcceptInv(m, fd, c);
        case Ready(fds) => SweptInv(m, fds, MAX_CLIENTS);
      }
      RunInv(Next(m, es[0]), es[1..]);
    }
  }

  function Init(conn: int): Mux {
    Mux(AddFd(seq(MAX_CLIENTS, _ => -1), conn), seq(MAX_CLIENTS, _ => 0), conn, map[], [], 0, true)
  }

  lemma {:induction false} SumZeros(s: seq<int>)
    requires forall i | 0 <= i < |s| :: s[i] == 0
    ensures Sum(s) == 0
  {
    if s != [] {
      SumZeros(s[..|s| - 1]);
    }
  }

  lemma InitInv(conn: int)
    requires conn > 0
    ensures Inv(Init(conn))
  {
    var m := Init(conn);
    assert First(seq(MAX_CLIENTS, _ => -1), -1) == 0;
    SumZeros(m.results);
    assert Results([]) == [];
  }

  function Streams(replies: seq<Reply>): (ss: seq<seq<int>>)
    ensures |ss| == |replies|
  {
    seq(|replies|, i requires 0 <= i < |replies| => replies[i].stream)
  }

  /** Whatever the interleaving and however often slots are reused, the multiplexing server
      sends what the single-client server sends to the same clients, served one by one. */
  lemma RunRefinesSingle(conn: int, es: seq<Event>)
    requires conn > 0 && Legal(Init(conn), es)
    ensures var m := After(Init(conn), es); Results(m.replies) == Answers(Streams(m.replies))
  {
    InitInv(conn);
    RunInv(Init(conn), es);
  }

  /** Nothing is lost: what has been read is either in a reply or in a running sum. */
  lemma RunConserves(conn: int, es: seq<Event>)
    requires conn > 0 && Legal(Init(conn), es)
    ensures var m := After(Init(conn), es); m.total == Sum(Results(m.replies)) + Sum(m.results)
  {
    InitInv(conn);
    RunInv(Init(conn), es);
  }

  /** In every reachable state a free slot holds 0, an occupied one the sum of what its
      present client has sent so far, and the master socket is in slot 0. */
  lemma RunAccumulates(conn: int, es: seq<Event>, i: nat)
    requires conn > 0 && Legal(Init(conn), es) && i < MAX_CLIENTS
    ensures var m := After(Init(conn), es);
            && |m.fds| == MAX_CLIENTS && |m.results| == MAX_CLIENTS && m.fds[0] == conn && m.conn == conn
            && (m.fds[i] == -1 || i == 0 ==> m.results[i] == 0)
            && (m.fds[i] != -1 && i > 0 ==>
                  && m.fds[i] in m.sockets
                  && var s := m.sockets[m.fds[i]];
                     s.pos <= Length(s.caller.stream) && m.results[i] == Sum(s.caller.stream[..s.pos]))
  {
    InitInv(conn);
    RunInv(Init(conn), es);
    var m := After(Init(conn), es);
    assert SlotInv(m, i);
    if m.fds[i] != -1 && i > 0 {
      PosBeforeEnd(m.sockets[m.fds[i]]);
    }
  }

  // ----- Every client is answered once -----

  function Arrivals(es: seq<Event>): seq<seq<int>>
    decreases |es|
  {
    if es == [] then []
    else (match es[0] case Connected(_, c) => [c.stream] case Ready(_) => []) + Arrivals(es[1..])
  }

  /** The open sockets on which this stream arrives. */
  function Open(m: Mux, stream: seq<int>): set<int> {
    set fd | fd in m.sockets && m.sockets[fd].caller.stream == stream
  }

  /** How many clients with this stream there have been: those answered and those open. */
  function Seen(m: Mux, stream: seq<int>): nat {
    multiset(Streams(m.replies))[stream] + |Open(m, stream)|
  }

  lemma AcceptClients(m: Mux, fd: int, c: Caller, stream: seq<int>)
    requires fd !in m.sockets
    ensures Seen(Accept(m, fd, c), stream) == Seen(m, stream) + if c.stream == stream then 1 else 0
  {
    assert Open(Accept(m, fd, c), stream) == Open(m, stream) + if c.stream == stream then {fd} else {};
  }

  lemma ReadSlotClients(m: Mux, i: nat, stream: seq<int>)
    requires i < |m.fds| && i < |m.results| && m.fds[i] in m.sockets
    ensures Seen(ReadSlot(m, i), stream) == Seen(m, stream)
  {
    var fd, m' := m.fds[i], ReadSlot(m, i);
    var s := m.sockets[fd];
    if Read(s.caller.stream, s.pos) == 0 && s.caller.waits {
      OpenClosed(m, m', fd, stream);
      assert Streams(m'.replies) == Streams(m.replies) + [s.caller.stream];
    } else {
      assert Open(m', stream) == Open(m, stream);
    }
  }

  lemma OpenClosed(m: Mux, m': Mux, fd: int, stream: seq<int>)
    requires fd in m.sockets && m'.sockets == m.sockets - {fd}
    ensures |Open(m', stream)| == |Open(m, stream)| - if m.sockets[fd].caller.stream == stream then 1 else 0
  {
    assert Open(m', stream) == Open(m, stream) - {fd};
    assert fd in Open(m, stream) <==> m.sockets[fd].caller.stream == stream;
  }

  lemma {:induction false} SweptClients(m: Mux, ready: set<int>, i: nat, stream: seq<int>)
    ensures Seen(Swept(m, ready, i), stream) == Seen(m, stream)
  {
    if i > 0 {
      SweptClients(m, ready, i - 1, stream);
      var m' := Swept(m, ready, i - 1);
      if ServedSlot(m', ready, i - 1) != m' {
        ReadSlotClients(m', i - 1, stream);
      }
    }
  }

  lemma {:induction false} AfterClients(m: Mux, es: seq<Event>, stream: seq<int>)
    requires Legal(m, es)
    ensures Seen(After(m, es), stream) == Seen(m, stream) + multiset(Arrivals(es))[stream]
    decreases |es|
  {
    if es != [] {
      AfterClients(Next(m, es[0]), es[1..], stream);
      match es[0]
      case Connected(fd, c) => AcceptClients(m, fd, c, stream);
      case Ready(fds) =>
        SweptClients(m, fds, MAX_CLIENTS, stream);
        assert Arrivals(es) == Arrivals(es[1..]);
    }
  }

  /** On every run every client that has connected has either been answered once or is
      still open, and nobody else is answered. */
  lemma RunAnswersOnce(conn: int, es: seq<Event>, stream: seq<int>)
    requires Legal(Init(conn), es)
    ensures var m := After(Init(conn), es);
            multiset(Streams(m.replies))[stream] + |Open(m, stream)| == multiset(Arrivals(es))[stream]
  {
    AfterClients(Init(conn), es, stream);
    assert Streams([]) == [] && Open(Init(conn), stream) == {};
  }

  // ----- A client that is ready often enough is answered -----

  /** What of the state belongs to slot `i` and descriptor `fd`. */
  datatype Seat = Seat(fd: int, result: int, open: bool, socket: Socket)

  function SeatOf(m: Mux, i: nat, fd: int): Seat
    requires i < |m.fds| && i < |m.results|
  {
    Seat(m.fds[i], m.results[i], fd in m.sockets,
         if fd in m.sockets then m.sockets[fd] else Socket(Caller([], false), 0))
  }

  /** The client in slot `i` has `left` values to send before its end. */
  ghost predicate Seated(m: Mux, i: nat, fd: int, c: Caller, left: nat) {
    && Inv(m) && 0 < i < MAX_CLIENTS && m.fds[i] == fd && fd > 0 && fd != m.conn && fd in m.sockets
    && m.sockets[fd].caller == c && m.sockets[fd].pos + left == Length(c.stream)
  }

  /** Its session is over: it has been sent the answer, its socket is closed and its slot
      is free and zero. */
  ghost predicate Answered(was: Mux, now: Mux, i: nat, fd: int, c: Caller) {
    && Inv(now) && 0 < i < MAX_CLIENTS
    && was.replies <= now.replies
    && Reply(c.stream, Answer(c.stream)) in now.replies[|was.replies|..]
    && fd !in now.sockets && now.fds[i] == -1 && now.results[i] == 0
  }

  /** Every client in a slot is one of these. */
  lemma IsSeated(m: Mux, i: nat)
    requires Inv(m) && 0 < i < MAX_CLIENTS && m.fds[i] != -1
    ensures m.fds[i] in m.sockets
    ensures var s := m.sockets[m.fds[i]];
            s.pos <= Length(s.caller.stream) && Seated(m, i, m.fds[i], s.caller, Length(s.caller.stream) - s.pos)
  {
    assert SlotInv(m, i);
    PosBeforeEnd(m.sockets[m.fds[i]]);
  }

  /** Reading another slot leaves this one alone. */
  lemma OtherSlot(m: Mux, j: nat, i: nat, fd: int)
    requires Inv(m) && i < MAX_CLIENTS && j < MAX_CLIENTS && i != j
    requires m.fds[j] != -1 && m.fds[j] != fd && m.fds[j] in m.sockets
    ensures var m' := ReadSlot(m, j);
            SeatOf(m', i, fd) == SeatOf(m, i, fd) && m.replies <= m'.replies
  {
    FirstOfDistinct(m.fds, j);
  }

  /** Reading this one takes one value, or ends the session, or kills the server. */
  lemma OwnSlot(m: Mux, i: nat, fd: int, c: Caller, left: nat)
    requires Seated(m, i, fd, c, left)
    ensures var m' := ReadSlot(m, i);
            && m.replies <= m'.replies
            && if left > 0 then Seated(m', i, fd, c, left - 1)
               else if c.waits then Answered(m, m', i, fd, c)
               else !m'.up
  {
    var m' := ReadSlot(m, i);
    assert SlotInv(m, i);
    PosBeforeEnd(m.sockets[fd]);
    ReadSlotInv(m, i);
    FirstOfDistinct(m.fds, i);
    if left == 0 && c.waits {
      assert m'.replies[|m.replies|..] == [Reply(c.stream, Answer(c.stream))];
    }
  }

  /** What a pass makes of the client in slot `i`, whose descriptor has been read in it or
      not, if the server is still alive. */
  ghost predicate Advanced(was: Mux, now: Mux, i: nat, fd: int, c: Caller, left: nat, read: bool) {
    && was.replies <= now.replies
    && (now.up ==>
          if !read then Seated(now, i, fd, c, left)
          else if left > 0 then Seated(now, i, fd, c, left - 1)
          else c.waits && Answered(was, now, i, fd, c))
  }

  lemma {:induction false} SweptAt(m: Mux, ready: set<int>, k: nat, i: nat, fd: int, c: Caller, left: nat)
    requires Seated(m, i, fd, c, left) && k <= MAX_CLIENTS && -1 !in ready && m.conn !in ready
    ensures Advanced(m, Swept(m, ready, k), i, fd, c, left, k > i && fd in ready)
  {
    if k > 0 {
      SweptAt(m, ready, k - 1, i, fd, c, left);
      SweptSlotAt(m, ready, k - 1, i, fd, c, left);
    }
  }

  lemma SweptSlotAt(m: Mux, ready: set<int>, j: nat, i: nat, fd: int, c: Caller, left: nat)
    requires Seated(m, i, fd, c, left) && j < MAX_CLIENTS && -1 !in ready && m.conn !in ready
    requires Advanced(m, Swept(m, ready, j), i, fd, c, left, j > i && fd in ready)
    ensures Advanced(m, Swept(m, ready, j + 1), i, fd, c, left, j + 1 > i && fd in ready)
  {
    var was, now := Swept(m, ready, j), Swept(m, ready, j + 1);
    SweptInv(m, ready, j);
    SweptInv(m, ready, j + 1);
    if !was.up {
      assert now == was;
    } else if j == i {
      if fd in ready {
        OwnSlot(was, i, fd, c, left);
        AnsweredFrom(m, was, now, i, fd, c);
      }
    } else if was.fds[j] in ready {
      OtherIsOther(m, was, j, i, fd, c, left, j > i && fd in ready);
      OtherSlot(was, j, i, fd);
      AdvancedKept(m, was, now, i, fd, c, left, j > i && fd in ready);
    }
  }

  lemma OtherIsOther(m: Mux, was: Mux, j: nat, i: nat, fd: int, c: Caller, left: nat, read: bool)
    requires Inv(was) && was.up && Advanced(m, was, i, fd, c, left, read)
    requires j < MAX_CLIENTS && j != i && was.fds[j] != -1 && was.fds[j] != was.conn
    ensures was.fds[j] != fd && was.fds[j] in was.sockets
  {
    assert SlotInv(was, j);
  }

  lemma AnsweredFrom(m: Mux, was: Mux, now: Mux, i: nat, fd: int, c: Caller)
    requires m.replies <= was.replies
    ensures Answered(was, now, i, fd, c) ==> Answered(m, now, i, fd, c)
    ensures was.replies <= now.replies ==> m.replies <= now.replies
  {
    if Answered(was, now, i, fd, c) {
      var k :| |was.replies| <= k < |now.replies| && now.replies[k] == Reply(c.stream, Answer(c.stream));
      assert now.replies[|m.replies|..][k - |m.replies|] == now.replies[k];
    }
  }

  lemma AdvancedKept(m: Mux, was: Mux, now: Mux, i: nat, fd: int, c: Caller, left: nat, read: bool)
    requires Advanced(m, was, i, fd, c, left, read) && Inv(now) && Inv(was) && now.conn == was.conn
    requires 0 < i < MAX_CLIENTS && SeatOf(now, i, fd) == SeatOf(was, i, fd) && was.replies <= now.replies
    requires now.up ==> was.up
    ensures Advanced(m, now, i, fd, c, left, read)
  {
    if now.up && read && left == 0 {
      var k :| |m.replies| <= k < |was.replies| && was.replies[k] == Reply(c.stream, Answer(c.stream));
      assert now.replies[k] == was.replies[k];
      assert now.replies[|m.replies|..][k - |m.replies|] == now.replies[k];
    }
  }

  /** Nothing that has been sent is taken back. */
  lemma {:induction false} RepliesStay(m: Mux, es: seq<Event>)
    requires Legal(m, es)
    ensures m.replies <= After(m, es).replies
    decreases |es|
  {
    if es != [] {
      if es[0].Ready? {
        SweptReplies(m, es[0].fds, MAX_CLIENTS);
      }
      RepliesStay(Next(m, es[0]), es[1..]);
    }
  }

  lemma {:induction false} SweptReplies(m: Mux, ready: set<int>, k: nat)
    ensures m.replies <= Swept(m, ready, k).replies
  {
    if k > 0 {
      SweptReplies(m, ready, k - 1);
    }
  }

  /** How often the descriptor is ready. */
  function Hits(es: seq<Event>, fd: int): nat
    decreases |es|
  {
    if es == [] then 0 else (if es[0].Ready? && fd in es[0].fds then 1 else 0) + Hits(es[1..], fd)
  }

  /** Another client comes. */
  lemma AcceptAt(m: Mux, g: int, other: Caller, i: nat, fd: int, c: Caller, left: nat)
    requires Seated(m, i, fd, c, left) && g > 0 && g != m.conn && g !in m.sockets
    ensures Seated(Accept(m, g, other), i, fd, c, left) && Accept(m, g, other).replies == m.replies
  {
    AcceptInv(m, g, other);
  }

  lemma NextAt(m: Mux, e: Event, i: nat, fd: int, c: Caller, left: nat)
    requires Seated(m, i, fd, c, left) && Possible(m, e)
    ensures Advanced(m, Next(m, e), i, fd, c, left, e.Ready? && fd in e.fds)
  {
    match e
    case Connected(g, other) => AcceptAt(m, g, other, i, fd, c, left);
    case Ready(ready) => SweptAt(m, ready, MAX_CLIENTS, i, fd, c, left);
  }

  /** Event number `k` is the one in which the client gets its answer. */
  ghost predicate AnsweredAt(m: Mux, es: seq<Event>, k: nat, i: nat, fd: int, c: Caller)
    requires Legal(m, es)
  {
    && k < |es| && es[k].Ready? && fd in es[k].fds
    && Legal(m, es[..k]) && Legal(m, es[..k + 1])
    && Seated(After(m, es[..k]), i, fd, c, 0)
    && Answered(After(m, es[..k]), After(m, es[..k + 1]), i, fd, c)
  }

  /** In any run, however many other clients come, send and go, and whatever slots they get:
      if a client with a slot has been ready more often than it has values left, and the
      server is still alive, then the client has waited for its answer and got it, the
      last of these times, and its slot was free and zero then. */
  lemma {:induction false} Completes(m: Mux, es: seq<Event>, i: nat, fd: int, c: Caller, left: nat)
    requires Seated(m, i, fd, c, left) && Legal(m, es) && Hits(es, fd) > left && After(m, es).up
    ensures c.waits
    ensures exists k: nat :: AnsweredAt(m, es, k, i, fd, c) && Hits(es[..k], fd) == left
    decreases |es|
  {
    var read := es[0].Ready? && fd in es[0].fds;
    NextAt(m, es[0], i, fd, c, left);
    assert Next(m, es[0]).up;
    if read && left == 0 {
      FirstHit(m, es, i, fd, c);
    } else {
      var left' := if read then left - 1 else left;
      Completes(Next(m, es[0]), es[1..], i, fd, c, left');
      var k: nat :| AnsweredAt(Next(m, es[0]), es[1..], k, i, fd, c) && Hits(es[1..][..k], fd) == left';
      OneEventEarlier(m, es, k, i, fd, c);
    }
  }

  lemma FirstHit(m: Mux, es: seq<Event>, i: nat, fd: int, c: Caller)
    requires es != [] && Legal(m, es) && es[0].Ready? && fd in es[0].fds
    requires Seated(m, i, fd, c, 0) && Answered(m, Next(m, es[0]), i, fd, c)
    ensures AnsweredAt(m, es, 0, i, fd, c) && Hits(es[..0], fd) == 0
  {
    OneEvent(m, es[0]);
    assert es[..0] == [] && es[..1] == [es[0]];
    assert After(m, es[..0]) == m && After(m, es[..1]) == Next(m, es[0]);
  }

  lemma OneEvent(m: Mux, e: Event)
    requires Possible(m, e)
    ensures Legal(m, [e]) && After(m, [e]) == Next(m, e)
  {
    assert [e][1..] == [];
    assert Legal(Next(m, e), []);
  }

  lemma OneEventEarlier(m: Mux, es: seq<Event>, k: nat, i: nat, fd: int, c: Caller)
    requires es != [] && Legal(m, es) && AnsweredAt(Next(m, es[0]), es[1..], k, i, fd, c)
    ensures AnsweredAt(m, es, k + 1, i, fd, c)
    ensures Hits(es[..k + 1], fd) == Hits(es[1..][..k], fd) + if es[0].Ready? && fd in es[0].fds then 1 else 0
  {
    FirstEvent(es, k);
    FirstEvent(es, k + 1);
  }

  lemma FirstEvent(es: seq<Event>, k: nat)
    requires k < |es|
    ensures es[..k + 1][0] == es[0] && es[..k + 1][1..] == es[1..][..k]
  {
  }

  /** As long as it has not been ready that often, it is still being served. */
  lemma {:induction false} StillServed(m: Mux, es: seq<Event>, i: nat, fd: int, c: Caller, left: nat)
    requires Seated(m, i, fd, c, left) && Legal(m, es) && Hits(es, fd) <= left && After(m, es).up
    ensures Seated(After(m, es), i, fd, c, left - Hits(es, fd))
    decreases |es|
  {
    if es != [] {
      var read := es[0].Ready? && fd in es[0].fds;
      NextAt(m, es[0], i, fd, c, left);
      assert Next(m, es[0]).up;
      StillServed(Next(m, es[0]), es[1..], i, fd, c, if read then left - 1 else left);
    }
  }

  // ----- Who gets a slot -----

  /** A client that connects while a slot is free gets the first one, with all of its values
      still to come. */
  lemma ConnectSeats(m: Mux, fd: int, c: Caller, i: nat)
    requires Inv(m) && Possible(m, Connected(fd, c))
    requires i < |m.fds| && m.fds[i] == -1 && forall j | 0 <= j < i :: m.fds[j] != -1
    ensures Seated(Next(m, Connected(fd, c)), i, fd, c, Length(c.stream))
  {
    AddsAtFirst(m.fds, fd, i);
    AcceptInv(m, fd, c);
  }

  lemma FirstFree(s: seq<int>)
    requires -1 in s
    ensures exists i: nat :: i < |s| && s[i] == -1 && forall j | 0 <= j < i :: s[j] != -1
  {
    var i := First(s, -1);
    assert i < |s| by {
      var j :| 0 <= j < |s| && s[j] == -1;
    }
  }

  /** A client without a slot is never read: whatever happens, nothing is taken from it. */
  lemma {:induction false} Unseated(m: Mux, es: seq<Event>, fd: int)
    requires Inv(m) && Legal(m, es) && fd in m.sockets && fd !in m.fds && fd > 0
    ensures var e := After(m, es); fd !in e.fds && fd in e.sockets && e.sockets[fd] == m.sockets[fd]
    decreases |es|
  {
    if es != [] {
      match es[0] {
        case Connected(g, c) => AddKeepsOut(m.fds, g, fd);
        case Ready(ready) => SweptUnseated(m, ready, MAX_CLIENTS, fd);
      }
      EventInv(m, es[0]);
      Unseated(Next(m, es[0]), es[1..], fd);
    }
  }

  lemma AddKeepsOut(s: seq<int>, g: int, fd: int)
    requires fd !in s && g != fd
    ensures fd !in AddFd(s, g)
  {
  }

  lemma {:induction false} SweptUnseated(m: Mux, ready: set<int>, k: nat, fd: int)
    requires Inv(m) && k <= MAX_CLIENTS && fd in m.sockets && fd !in m.fds && fd > 0
    requires -1 !in ready && m.conn !in ready
    ensures var m' := Swept(m, ready, k); fd !in m'.fds && fd in m'.sockets && m'.sockets[fd] == m.sockets[fd]
    decreases k
  {
    if k > 0 {
      SweptUnseated(m, ready, k - 1, fd);
      SweptInv(m, ready, k - 1);
      ReadUnseated(Swept(m, ready, k - 1), ready, k - 1, fd);
    }
  }

  lemma ReadUnseated(m: Mux, ready: set<int>, i: nat, fd: int)
    requires Inv(m) && fd in m.sockets && fd !in m.fds && fd > 0
    ensures var m' := ServedSlot(m, ready, i); fd !in m'.fds && fd in m'.sockets && m'.sockets[fd] == m.sockets[fd]
  {
    if i < |m.fds| {
      assert m.fds[i] in m.fds;
    }
  }

  /** A run that begins with a connection, while a slot is free: as soon as the client has
      been ready once more than it has values to send, and the server is still alive, it has
      waited for its answer and got it. */
  lemma IsAnswered(m: Mux, es: seq<Event>, fd: int, c: Caller)
    requires Inv(m) && -1 in m.fds && es != [] && es[0] == Connected(fd, c) && Legal(m, es)
    requires Hits(es[1..], fd) > Length(c.stream) && After(m, es).up
    ensures c.waits
    ensures exists i: nat, k: nat ::
              && AnsweredAt(Next(m, es[0]), es[1..], k, i, fd, c)
              && Hits(es[1..][..k], fd) == Length(c.stream)
    ensures var was, now := m.replies, After(m, es).replies;
            was <= now && Reply(c.stream, Answer(c.stream)) in now[|was|..]
  {
    FirstFree(m.fds);
    var i: nat :| i < |m.fds| && m.fds[i] == -1 && forall j | 0 <= j < i :: m.fds[j] != -1;
    var m1, rest := Next(m, es[0]), es[1..];
    ConnectSeats(m, fd, c, i);
    Completes(m1, rest, i, fd, c, Length(c.stream));
    var k: nat :| AnsweredAt(m1, rest, k, i, fd, c) && Hits(rest[..k], fd) == Length(c.stream);
    ReplyStays(m1, rest, k, i, fd, c);
  }

  lemma {:induction false} AfterAppend(m: Mux, a: seq<Event>, b: seq<Event>)
    requires Legal(m, a + b)
    ensures Legal(m, a) && Legal(After(m, a), b) && After(m, a + b) == After(After(m, a), b)
    decreases |a|
  {
    if a == [] {
      assert a + b == b;
    } else {
      assert (a + b)[0] == a[0] && (a + b)[1..] == a[1..] + b;
      AfterAppend(Next(m, a[0]), a[1..], b);
    }
  }

  lemma ReplyStays(m: Mux, es: seq<Event>, k: nat, i: nat, fd: int, c: Caller)
    requires Legal(m, es) && AnsweredAt(m, es, k, i, fd, c)
    ensures var was, now := m.replies, After(m, es).replies;
            was <= now && Reply(c.stream, Answer(c.stream)) in now[|was|..]
  {
    var was, now, e := After(m, es[..k]), After(m, es[..k + 1]), After(m, es);
    RepliesStay(m, es[..k]);
    assert es == es[..k + 1] + es[k + 1..];
    AfterAppend(m, es[..k + 1], es[k + 1..]);
    RepliesStay(now, es[k + 1..]);
    var j :| |was.replies| <= j < |now.replies| && now.replies[j] == Reply(c.stream, Answer(c.stream));
    assert e.replies[j] == now.replies[j];
    assert e.replies[|m.replies|..][j - |m.replies|] == e.replies[j];
  }

  // ----- What kills the server -----

  /** A client in a slot that has gone, with nothing left to read from it. */
  ghost predicate Fatal(m: Mux, i: nat) {
    && 0 < i < |m.fds| && m.fds[i] in m.sockets
    && var s := m.sockets[m.fds[i]];
       !s.caller.waits && Read(s.caller.stream, s.pos) == 0
  }

  /** No client of this kind is ready. */
  ghost predicate SparedBy(m: Mux, e: Event) {
    e.Ready? ==> forall i: nat | i < |m.fds| && m.fds[i] in e.fds :: !Fatal(m, i)
  }

  /** A free slot stays free while the others are read. */
  lemma {:induction false} FreeStays(m: Mux, ready: set<int>, k: nat, i: nat)
    requires Inv(m) && k <= MAX_CLIENTS && i < MAX_CLIENTS && m.fds[i] == -1 && -1 !in ready && m.conn !in ready
    ensures |Swept(m, ready, k).fds| == MAX_CLIENTS && Swept(m, ready, k).fds[i] == -1
  {
    if k > 0 {
      FreeStays(m, ready, k - 1, i);
    }
  }

  /** When its turn comes, a slot is as it was before the pass. */
  lemma BeforeItsTurn(m: Mux, ready: set<int>, i: nat)
    requires Inv(m) && 0 < i < MAX_CLIENTS && -1 !in ready && m.conn !in ready
    requires Swept(m, ready, i).up
    ensures var was := Swept(m, ready, i);
            && |was.fds| == MAX_CLIENTS && was.fds[i] == m.fds[i]
            && (m.fds[i] != -1 ==> (Fatal(was, i) <==> Fatal(m, i)))
  {
    if m.fds[i] == -1 {
      FreeStays(m, ready, i, i);
    } else {
      IsSeated(m, i);
      var s := m.sockets[m.fds[i]];
      SweptAt(m, ready, i, i, m.fds[i], s.caller, Length(s.caller.stream) - s.pos);
      IsSeated(Swept(m, ready, i), i);
    }
  }

  lemma {:induction false} SweptSpared(m: Mux, ready: set<int>, k: nat)
    requires Inv(m) && m.up && k <= MAX_CLIENTS && -1 !in ready && m.conn !in ready && SparedBy(m, Ready(ready))
    ensures Swept(m, ready, k).up
  {
    if k > 0 {
      SweptSpared(m, ready, k - 1);
      SweptInv(m, ready, k - 1);
      var was := Swept(m, ready, k - 1);
      if was.fds[k - 1] in ready {
        BeforeItsTurn(m, ready, k - 1);
        IsSeated(was, k - 1);
      }
    }
  }

  lemma FatalKills(m: Mux, ready: set<int>, i: nat)
    requires Inv(m) && i < MAX_CLIENTS && -1 !in ready && m.conn !in ready && m.fds[i] in ready && Fatal(m, i)
    ensures !Swept(m, ready, MAX_CLIENTS).up
  {
    IsSeated(m, i);
    var s := m.sockets[m.fds[i]];
    assert SlotInv(m, i);
    PosBeforeEnd(s);
    SweptAt(m, ready, MAX_CLIENTS, i, m.fds[i], s.caller, 0);
  }

  /** An event leaves the server alive if and only if no client is ready that has gone and
      has nothing left to read. */
  lemma EventSurvives(m: Mux, e: Event)
    requires Inv(m) && Possible(m, e)
    ensures Next(m, e).up <==> SparedBy(m, e)
  {
    if e.Ready? {
      if SparedBy(m, e) {
        SweptSpared(m, e.fds, MAX_CLIENTS);
      } else {
        var i: nat :| i < |m.fds| && m.fds[i] in e.fds && Fatal(m, i);
        FatalKills(m, e.fds, i);
      }
    }
  }

  /** So it is in every event of the run. */
  ghost predicate Spared(m: Mux, es: seq<Event>)
    decreases |es|
  {
    es != [] ==> SparedBy(m, es[0]) && Spared(Next(m, es[0]), es[1..])
  }

  lemma {:induction false} AfterSurvives(m: Mux, es: seq<Event>)
    requires Inv(m) && m.up && Legal(m, es)
    ensures After(m, es).up <==> Spared(m, es)
    decreases |es|
  {
    if es != [] {
      EventSurvives(m, es[0]);
      EventInv(m, es[0]);
      if Next(m, es[0]).up {
        AfterSurvives(Next(m, es[0]), es[1..]);
      }
    }
  }

  lemma EventInv(m: Mux, e: Event)
    requires Inv(m) && Possible(m, e)
    ensures Inv(Next(m, e))
  {
    match e
    case Connected(fd, c) => AcceptInv(m, fd, c);
    case Ready(fds) => SweptInv(m, fds, MAX_CLIENTS);
  }

  /** A run leaves the server alive if and only if it never has to answer a client that has
      gone. */
  lemma RunSurvives(conn: int, es: seq<Event>)
    requires conn > 0 && Legal(Init(conn), es)
    ensures After(Init(conn), es).up <==> Spared(Init(conn), es)
  {
    InitInv(conn);
    AfterSurvives(Init(conn), es);
  }

  /** It takes one client that sends nothing and goes. */
  lemma LeavingKills(conn: int, fd: int)
    requires conn > 0 && fd > 0 && fd != conn
    ensures var es := [Connected(fd, Caller([], false)), Ready({fd})];
            Legal(Init(conn), es) && !After(Init(conn), es).up
  {
    var e := Connected(fd, Caller([], false));
    InitInv(conn);
    FirstSlot(conn, fd, Caller([], false));
    EventInv(Init(conn), e);
    GoneKills(Next(Init(conn), e), 1, fd);
    TwoEvents(Init(conn), e, Ready({fd}));
  }

  lemma GoneKills(m: Mux, i: nat, fd: int)
    requires Inv(m) && m.up && Fatal(m, i) && m.fds[i] == fd && fd > 0 && fd != m.conn
    ensures Possible(m, Ready({fd})) && !Next(m, Ready({fd})).up
  {
    assert !SparedBy(m, Ready({fd}));
    EventSurvives(m, Ready({fd}));
  }

  lemma TwoEvents(m: Mux, a: Event, b: Event)
    requires Possible(m, a) && Possible(Next(m, a), b)
    ensures Legal(m, [a, b]) && After(m, [a, b]) == Next(Next(m, a), b)
  {
    OneEvent(Next(m, a), b);
    assert [a, b][1..] == [b];
  }

  lemma FirstSlot(conn: int, fd: int, c: Caller)
    requires conn > 0 && fd > 0 && fd != conn
    ensures var m := Init(conn);
            && Possible(m, Connected(fd, c))
            && var m1 := Next(m, Connected(fd, c));
               && |m1.fds| == MAX_CLIENTS && m1.fds[1] == fd && m1.up && m1.conn == conn
               && fd in m1.sockets && m1.sockets[fd] == Socket(c, 0)
  {
    var m, free := Init(conn), seq(MAX_CLIENTS, _ => -1);
    assert First(free, -1) == 0;
    assert m.fds[0] == conn && m.fds[1] == -1 && First(m.fds, -1) == 1;
  }

  lemma PosBeforeEnd(s: Socket)
    requires s.pos <= |s.caller.stream| && forall k | 0 <= k < s.pos :: s.caller.stream[k] != 0
    ensures s.pos <= Length(s.caller.stream)
    ensures s.pos == Length(s.caller.stream) <==> Read(s.caller.stream, s.pos) == 0
  {
    if Read(s.caller.stream, s.pos) == 0 {
      LengthIs(s.caller.stream, s.pos);
    }
  }

  // ----- The program -----

  class MuxServer {
    const monitored: array<int>
    const results: array<int>
    const conn: int
    var sockets: map<int, Socket>
    var replies: seq<Reply>
    var up: bool
    ghost var total: int

    ghost function Abs(): Mux
      reads this, monitored, results
    {
      Mux(monitored[..], results[..], conn, sockets, replies, total, up)
    }

    ghost predicate Valid()
      reads this, monitored, results
    {
      monitored != results && Inv(Abs())
    }

    constructor (conn: int)
      requires conn > 0
      ensures Valid() && Abs() == Init(conn) && fresh(monitored) && fresh(results)
    {
      monitored := new int[MAX_CLIENTS](_ => -1);
      results := new int[MAX_CLIENTS](_ => 0);
      this.conn := conn;
      sockets, replies, total, up := map[], [], 0, true;
      new;
      AddToMonitoredFdSet(monitored, conn);
      assert Abs() == Init(conn) by {
        assert results[..] == Init(conn).results;
      }
      InitInv(conn);
    }

    /** A new client, with all that it is going to send. */
    method AcceptClient(fd: int, c: Caller)
      requires Valid() && fd > 0 && fd != conn && fd !in sockets
      modifies this`sockets, monitored
      ensures Valid() && Abs() == Accept(old(Abs()), fd, c)
    {
      AcceptInv(Abs(), fd, c);
      AddToMonitoredFdSet(monitored, fd);
      sockets := sockets[fd := Socket(c, 0)];
    }

    /** One ready slot: a value is added, a zero ends the session. */
    method ServeSlot(i: nat)
      requires Valid() && i < MAX_CLIENTS && monitored[i] != -1 && monitored[i] != conn
      modifies this, monitored, results
      ensures old(monitored[i] in sockets) && Abs() == ReadSlot(old(Abs()), i) && Valid()
    {
      ReadSlotInv(Abs(), i);
      var fd := monitored[i];
      var s := sockets[fd];
      var data := Read(s.caller.stream, s.pos);
      if data == 0 {
        if !s.caller.waits {
          up := false;
          return;
        }
        replies := replies + [Reply(s.caller.stream, results[i])];
        sockets := sockets - {fd};
        results[i] := 0;
        RemoveFromMonitoredFdSet(monitored, fd);
      } else {
        sockets := sockets[fd := Socket(s.caller, s.pos + 1)];
        results[i] := results[i] + data;
        total := total + data;
      }
    }

    /** The loop over the slots after a `select` that did not report the master socket. */
    method ServeReady(ready: set<int>)
      requires Valid() && -1 !in ready && conn !in ready
      modifies this, monitored, results
      ensures Valid() && Abs() == Swept(old(Abs()), ready, MAX_CLIENTS)
    {
      for i := 0 to MAX_CLIENTS
        invariant Valid() && Abs() == Swept(old(Abs()), ready, i)
      {
        if up && monitored[i] in ready {
          ServeSlot(i);
        }
      }
    }

    /** A pass of the main loop: `select` reports the master socket, or some clients. */
    method Perform(e: Event)
      requires Valid() && Possible(Abs(), e)
      modifies this, monitored, results
      ensures Valid() && Abs() == Next(old(Abs()), e)
    {
      match e
      case Connected(fd, c) => AcceptClient(fd, c);
      case Ready(fds) => ServeReady(fds);
    }
  }

  /** The program: on every sequence of events it makes the run that they are. */
  method RunMux(conn: int, es: seq<Event>) returns (server: MuxServer)
    requires conn > 0 && Legal(Init(conn), es)
    ensures server.Valid() && server.Abs() == After(Init(conn), es)
  {
    server := new MuxServer(conn);
    for k := 0 to |es|
      invariant fresh(server) && fresh(server.monitored) && fresh(server.results)
      invariant server.Valid() && Legal(server.Abs(), es[k..])
      invariant After(server.Abs(), es[k..]) == After(Init(conn), es)
    {
      assert es[k..][0] == es[k] && es[k..][1..] == es[k + 1..];
      server.Perform(es[k]);
    }
  }
}
