/** `update_new_client`: the messages that carry the server's tables to a new client.
    One message is reused for all entries and never cleared, so an entry can drag along
    the end of an earlier, longer one. */
module Snapshot {
  import opened CString
  import opened Tokens
  import opened Address
  import opened Message
  import opened Table

  const OP_LEN := 128

  // ----- Printing -----

  function PrintRoute(r: Route): CStr {
    assert NUL !in Decimal(r.mask);
    "C" + " " + (r.dest + " " + (Decimal(r.mask) + " " + (r.gw + " " + r.oif)))
  }

  function PrintMac(mac: CStr): CStr {
    "C " + mac
  }

  function RouteWords(r: Route): seq<CStr> {
    ["C", r.dest, Decimal(r.mask), r.gw, r.oif]
  }

  lemma RouteWordsValid(r: Route)
    requires TypedRoute(r)
    ensures forall t | t in RouteWords(r) :: IsWord(t)
  {
    IpShape(r.dest);
    IpShape(r.gw);
  }

  /** The printed text always fits the buffer it is printed into, terminator included. */
  lemma PrintFits(r: Route)
    requires TypedRoute(r)
    ensures |PrintRoute(r)| < OP_LEN
    ensures Split(PrintRoute(r)) == RouteWords(r)
  {
    IpShape(r.dest);
    IpShape(r.gw);
    RouteWordsValid(r);
    SplitJoin(RouteWords(r));
    PrintIsJoin(r);
  }

  lemma PrintIsJoin(r: Route)
    ensures PrintRoute(r) == Join(RouteWords(r))
  {
    JoinCons(r.gw, [r.oif]);
    JoinCons(Decimal(r.mask), [r.gw, r.oif]);
    JoinCons(r.dest, [Decimal(r.mask), r.gw, r.oif]);
    JoinCons("C", [r.dest, Decimal(r.mask), r.gw, r.oif]);
  }

  lemma JoinCons(a: string, ts: seq<string>)
    requires ts != []
    ensures Join([a] + ts) == a + " " + Join(ts)
  {
    assert ([a] + ts)[1..] == ts;
  }

  lemma PrintMacFits(mac: CStr)
    requires IsMac(mac)
    ensures |PrintMac(mac)| < OP_LEN
    ensures Split(PrintMac(mac)) == ["C", mac]
  {
    assert ' ' !in mac;
    SplitJoin(["C", mac]);
    assert ["C", mac][1..] == [mac];
    assert PrintMac(mac) == Join(["C", mac]);
  }

  /** The words of a terminated line. */
  function WordsOf(line: CStr): (ts: Words)
    ensures ts == Split(line)
  {
    assert forall t | t in Split(line) :: NUL !in t by {
      forall t | t in Split(line) ensures NUL !in t {
        if NUL in t { SplitChars(line, t, NUL); }
      }
    }
    Split(line)
  }

  /** Printing an entry and parsing the line into a message in any state is accepted and
      yields the entry, overlaid on the text the message held before. */
  lemma ReparseRoute(r: Route, m: Msg)
    requires ValidRoute(r) && CleanBody(m.body)
    ensures var (o, m') := Parse(WordsOf(PrintRoute(r)), m, true, true);
            && o == Accepted && m'.op == CREATE && m'.l == L3
            && CleanBody(m'.body)
            && RouteOf(m'.body) == OverlayRoute(r, RouteOf(m.body))
            && m'.body[MAC_ADDR_LEN - 1] == NUL
  {
    PrintFits(r);
    var ts := WordsOf(PrintRoute(r));
    IpShape(r.dest);
    DestReads(m.body, r.dest);
    var m1 := Msg(CREATE, L3, Put(m.body, 0, r.dest));
    ValueOfDecimal(r.mask);
    MaskReads(ts, m1);
    MaskHighByte(Parse(ts, m, true, true).1.body);
  }

  lemma MaskHighByte(b: Body)
    requires MaskOf(b) <= MAX_MASK
    ensures b[MAC_ADDR_LEN - 1] == NUL
  {
    assert b[MASK_AT + 1] as int == 0;
  }

  /** On a blank message this is a round trip. */
  lemma RouteRoundTrip(r: Route)
    requires ValidRoute(r)
    ensures var (o, m) := Parse(WordsOf(PrintRoute(r)), BLANK, true, true);
            o == Accepted && Effect(m) == AddRoute(r)
  {
    BlankClean();
    ReparseRoute(r, BLANK);
  }

  /** A MAC entry always survives: 17 characters overwrite 17 characters, and the byte
      behind them is the high byte of a mask, which is zero. */
  lemma ReparseMac(mac: CStr, m: Msg)
    requires IsMac(mac) && m.body[MAC_ADDR_LEN - 1] == NUL
    ensures var (o, m') := Parse(WordsOf(PrintMac(mac)), m, true, true);
            && o == Accepted && m'.op == CREATE && m'.l == L2
            && MacOf(m'.body) == mac
            && m'.body[MAC_ADDR_LEN - 1] == NUL
  {
    PrintMacFits(mac);
    IpIsNotMac(mac);
    MacReads(m.body, mac);
  }

  // ----- The stream -----

  ghost predicate ValidTables(t: Tables) {
    && Unique(t)
    && (forall r | r in t.rt :: ValidRoute(r))
    && (forall mac | mac in t.ml :: IsMac(mac))
  }

  function RouteMessage(r: Route, m: Msg): Msg
  {
    Parse(WordsOf(PrintRoute(r)), m.(op := CREATE), true, true).1
  }

  function MacMessage(mac: CStr, m: Msg): Msg
  {
    Parse(WordsOf(PrintMac(mac)), m.(op := CREATE), true, true).1
  }

  /** The first phase: one message for each route and a closing NONE, all of them states
      of the message that starts as `m`. */
  function RouteStream(rt: seq<Route>, m: Msg): (s: seq<Msg>)
    ensures |s| == |rt| + 1
  {
    if rt == [] then [m.(op := NONE)]
    else
      var m' := RouteMessage(rt[0], m);
      [m'] + RouteStream(rt[1..], m')
  }

  function MacStream(ml: seq<CStr>, m: Msg): (s: seq<Msg>)
    ensures |s| == |ml| + 1
  {
    if ml == [] then [m.(op := NONE)]
    else
      var m' := MacMessage(ml[0], m);
      [m'] + MacStream(ml[1..], m')
  }

  // ----- When the first phase is exact -----

  /** The caller's view of the condition: going down the table, no destination, gateway
      or interface text is shorter than the one in the entry above it. */
  predicate Narrower(a: Route, b: Route) {
    |a.dest| <= |b.dest| && |a.gw| <= |b.gw| && |a.oif| <= |b.oif|
  }

  predicate Widening(rt: seq<Route>) {
    forall i | 0 < i < |rt| :: Narrower(rt[i - 1], rt[i])
  }

  /** The routes the client reads out of the first phase. */
  function Seen(rt: seq<Route>, was: Route): (s: seq<Route>)
    ensures |s| == |rt|
  {
    if rt == [] then []
    else
      var r := OverlayRoute(rt[0], was);
      [r] + Seen(rt[1..], r)
  }

  lemma {:induction false} SeenExact(rt: seq<Route>, was: Route)
    ensures Seen(rt, was) == rt <==> Widening(rt) && (rt != [] ==> Narrower(was, rt[0]))
  {
    if rt != [] {
      OverlayExact(rt[0].dest, was.dest);
      OverlayExact(rt[0].gw, was.gw);
      OverlayExact(rt[0].oif, was.oif);
      var r := OverlayRoute(rt[0], was);
      SeenExact(rt[1..], r);
      assert r == rt[0] <==> Narrower(was, rt[0]);
      assert Seen(rt, was) == rt <==> r == rt[0] && Seen(rt[1..], r) == rt[1..] by {
        assert Seen(rt, was)[0] == r && Seen(rt, was)[1..] == Seen(rt[1..], r);
        assert rt == [rt[0]] + rt[1..];
      }
      WideningCons(rt);
    }
  }

  lemma WideningCons(rt: seq<Route>)
    requires rt != []
    ensures Widening(rt) <==> Widening(rt[1..]) && (|rt| > 1 ==> Narrower(rt[0], rt[1]))
  {
    var s := rt[1..];
    if Widening(rt) {
      forall i | 0 < i < |s| ensures Narrower(s[i - 1], s[i]) {
        assert Narrower(rt[i + 1 - 1], rt[i + 1]);
      }
      if |rt| > 1 {
        assert Narrower(rt[1 - 1], rt[1]);
      }
    }
    if Widening(s) && (|rt| > 1 ==> Narrower(rt[0], rt[1])) {
      forall i | 0 < i < |rt| ensures Narrower(rt[i - 1], rt[i]) {
        if i > 1 {
          assert Narrower(s[i - 1 - 1], s[i - 1]);
        }
      }
    }
  }

  /** Adding routes one by one: the table has grown by all of them exactly when none was
      dropped as a duplicate, and then they stand at the end in their order. */
  function AddAll(rt: seq<Route>, rs: seq<Route>): seq<Route>
    decreases |rs|
  {
    if rs == [] then rt else AddAll(ApplyRt(rt, AddRoute(rs[0])), rs[1..])
  }

  lemma {:induction false} AddAllLength(rt: seq<Route>, rs: seq<Route>)
    ensures |AddAll(rt, rs)| <= |rt| + |rs|
    ensures |AddAll(rt, rs)| == |rt| + |rs| ==> AddAll(rt, rs) == rt + rs
    decreases |rs|
  {
    if rs != [] {
      AddAllLength(ApplyRt(rt, AddRoute(rs[0])), rs[1..]);
      assert rt + [rs[0]] + rs[1..] == rt + rs;
    }
  }

  lemma {:induction false} AddAllUnique(rt: seq<Route>, rs: seq<Route>)
    requires UniqueRoutes(rt + rs)
    ensures AddAll(rt, rs) == rt + rs
    decreases |rs|
  {
    if rs != [] {
      assert rt + [rs[0]] + rs[1..] == rt + rs;
      var i := FindRoute(rt, rs[0].dest, rs[0].mask);
      assert i == |rt| by {
        assert forall j | 0 <= j < |rt| :: (rt + rs)[j] == rt[j];
        assert (rt + rs)[|rt|] == rs[0];
      }
      AddAllUnique(rt + [rs[0]], rs[1..]);
    }
  }

  lemma {:induction false} RouteStreamReplays(t: Tables, rt: seq<Route>, m: Msg)
    requires CleanBody(m.body) && forall r | r in rt :: ValidRoute(r)
    ensures Replay(t, RouteStream(rt, m)) == t.(rt := AddAll(t.rt, Seen(rt, RouteOf(m.body))))
    ensures m.body[MAC_ADDR_LEN - 1] == NUL ==> RouteStream(rt, m)[|rt|].body[MAC_ADDR_LEN - 1] == NUL
    decreases |rt|
  {
    if rt == [] {
      assert Replay(t, [m.(op := NONE)]) == t;
    } else {
      ReparseRoute(rt[0], m.(op := CREATE));
      var m' := RouteMessage(rt[0], m);
      var r := OverlayRoute(rt[0], RouteOf(m.body));
      var t' := Apply(t, AddRoute(r));
      RouteStreamReplays(t', rt[1..], m');
      assert RouteStream(rt, m)[1..] == RouteStream(rt[1..], m');
      assert Seen(rt, RouteOf(m.body))[1..] == Seen(rt[1..], r);
    }
  }

  /** The first phase rebuilds the server's routing table, in order and without a dropped
      duplicate, exactly when the table is widening. */
  lemma RoutesExact(t: Tables, rt: seq<Route>)
    requires t.rt == [] && UniqueRoutes(rt) && forall r | r in rt :: ValidRoute(r)
    ensures Replay(t, RouteStream(rt, BLANK)).rt == rt <==> Widening(rt)
    ensures Replay(t, RouteStream(rt, BLANK)).ml == t.ml
  {
    BlankClean();
    RouteStreamReplays(t, rt, BLANK);
    SeenRebuilds(rt);
  }

  /** Nothing is shown differently and nothing is dropped, or the table is wrong. */
  lemma SeenRebuilds(rt: seq<Route>)
    requires UniqueRoutes(rt)
    ensures AddAll([], Seen(rt, NO_ROUTE)) == rt <==> Widening(rt)
  {
    var seen := Seen(rt, NO_ROUTE);
    SeenExact(rt, NO_ROUTE);
    AddAllLength([], seen);
    if seen == rt {
      AddAllUnique([], rt);
    }
  }

  function AddMacs(ml: seq<CStr>, macs: seq<CStr>): seq<CStr>
    decreases |macs|
  {
    if macs == [] then ml else AddMacs(ApplyMl(ml, AddMac(macs[0])), macs[1..])
  }

  lemma {:induction false} AddMacsUnique(ml: seq<CStr>, macs: seq<CStr>)
    requires UniqueMacs(ml + macs)
    ensures AddMacs(ml, macs) == ml + macs
    decreases |macs|
  {
    if macs != [] {
      assert ml + [macs[0]] + macs[1..] == ml + macs;
      assert FindMac(ml, macs[0]) == |ml| by {
        assert forall j | 0 <= j < |ml| :: (ml + macs)[j] == ml[j];
        assert (ml + macs)[|ml|] == macs[0];
      }
      AddMacsUnique(ml + [macs[0]], macs[1..]);
    }
  }

  lemma {:induction false} MacStreamReplays(t: Tables, ml: seq<CStr>, m: Msg)
    requires m.body[MAC_ADDR_LEN - 1] == NUL && forall mac | mac in ml :: IsMac(mac)
    ensures Replay(t, MacStream(ml, m)) == t.(ml := AddMacs(t.ml, ml))
    decreases |ml|
  {
    if ml == [] {
      assert Replay(t, [m.(op := NONE)]) == t;
    } else {
      ReparseMac(ml[0], m.(op := CREATE));
      var m' := MacMessage(ml[0], m);
      MacStreamReplays(Apply(t, AddMac(ml[0])), ml[1..], m');
      assert MacStream(ml, m)[1..] == MacStream(ml[1..], m');
    }
  }

  // ----- Every message of a snapshot can be processed -----

  ghost predicate AllReady(ms: seq<Msg>) {
    forall i | 0 <= i < |ms| :: Ready(ms[i])
  }

  lemma {:induction false} RouteStreamReady(rt: seq<Route>, m: Msg)
    requires CleanBody(m.body) && forall r | r in rt :: ValidRoute(r)
    ensures AllReady(RouteStream(rt, m))
    decreases |rt|
  {
    if rt != [] {
      ReparseRoute(rt[0], m.(op := CREATE));
      RouteStreamReady(rt[1..], RouteMessage(rt[0], m));
    }
  }

  lemma {:induction false} MacStreamReady(ml: seq<CStr>, m: Msg)
    requires m.body[MAC_ADDR_LEN - 1] == NUL && forall mac | mac in ml :: IsMac(mac)
    ensures AllReady(MacStream(ml, m))
    decreases |ml|
  {
    if ml != [] {
      ReparseMac(ml[0], m.(op := CREATE));
      MacIsReadable(MacMessage(ml[0], m).body, ml[0]);
      MacStreamReady(ml[1..], MacMessage(ml[0], m));
    }
  }

  // ----- What goes wrong without the condition -----

  /** A route whose destination is the beginning of the one above it, under the same mask,
      comes out with the key of that one and is dropped as a duplicate. */
  lemma PrefixIsLost(a: Route, b: Route)
    requires ValidRoute(a) && ValidRoute(b) && a.mask == b.mask && b.dest < a.dest
    ensures ValidTables(Tables([a, b], [])) && SnapshotOf([a, b]) == [a]
  {
    PairValid(a, b);
    SnapshotIsSeen([a, b]);
    SeenPrefix(a, b);
  }

  lemma PairValid(a: Route, b: Route)
    requires ValidRoute(a) && ValidRoute(b) && a.dest != b.dest
    ensures ValidTables(Tables([a, b], [])) && forall r | r in [a, b] :: ValidRoute(r)
  {
  }

  /** The routing table of a new client after the first phase. */
  function SnapshotOf(rt: seq<Route>): seq<Route> {
    Replay(EMPTY, RouteStream(rt, BLANK)).rt
  }

  lemma SnapshotIsSeen(rt: seq<Route>)
    requires forall r | r in rt :: ValidRoute(r)
    ensures SnapshotOf(rt) == AddAll([], Seen(rt, NO_ROUTE))
  {
    BlankClean();
    RouteStreamReplays(EMPTY, rt, BLANK);
  }

  lemma SeenPrefix(a: Route, b: Route)
    requires a.mask == b.mask && b.dest < a.dest
    ensures AddAll([], Seen([a, b], NO_ROUTE)) == [a]
  {
    var b' := OverlayRoute(b, a);
    assert b'.dest == a.dest;
    assert OverlayRoute(a, NO_ROUTE) == a;
    assert [a, b][1..] == [b] && [b][1..] == [];
    assert Seen([b], a) == [b'];
    assert Seen([a, b], NO_ROUTE) == [a, b'];
    assert [a, b'][1..] == [b'] && [b'][1..] == [];
    assert ApplyRt([], AddRoute(a)) == [a];
    assert ApplyRt([a], AddRoute(b')) == [a];
    assert AddAll([a], [b']) == AddAll([a], []);
    assert AddAll([], [a, b']) == AddAll([a], [b']);
  }

  const FIRST := Route("10.0.0.10", 24, "10.0.0.10", "eth0")
  const SECOND := Route("10.0.0.1", 24, "10.0.0.1", "eth1")

  /** Two such routes: a new client learns only one of them. */
  lemma SnapshotLosesRoute()
    ensures ValidTables(Tables([FIRST, SECOND], [])) && SnapshotOf([FIRST, SECOND]) == [FIRST]
  {
    ExampleRoutes();
    PrefixIsLost(FIRST, SECOND);
  }

  lemma ExampleRoutes()
    ensures ValidRoute(FIRST) && ValidRoute(SECOND) && SECOND.dest < FIRST.dest
  {
    FirstAddress();
    SecondAddress();
    ExamplePrefix();
  }

  lemma FirstAddress()
    ensures IsIp(FIRST.dest)
  {
    SmallOctets();
    OctetsAreIp("10", "0", "0", "10");
    assert "10" + "." + "0" + "." + "0" + "." + "10" == FIRST.dest;
  }

  lemma SecondAddress()
    ensures IsIp(SECOND.dest)
  {
    SmallOctets();
    OctetsAreIp("10", "0", "0", "1");
    assert "10" + "." + "0" + "." + "0" + "." + "1" == SECOND.dest;
  }

  lemma ExamplePrefix()
    ensures SECOND.dest < FIRST.dest && IsOif(FIRST.oif) && IsOif(SECOND.oif)
  {
  }
}
