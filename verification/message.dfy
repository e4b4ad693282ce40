/** `sync_msg_t`: its bytes, what they mean, how a command line is written into
    them and how a table entry is printed as a command line. */
module Message {
  import opened CString
  import opened Tokens
  import opened Address

  datatype OpCode = CREATE | UPDATE | DELETE | NONE
  datatype LCode = L3 | L2

  // ----- Layout of msg_body, a union of the two entry structures -----
  //
  // routing_table_entry: dest 0..16, mask 16..18 (little-endian), gw 18..34, oif 34..66
  // mac_list_entry:      mac 0..18

  const BODY_LEN := 66
  const IP_ADDR_LEN := 16
  const OIF_LEN := 32
  const MASK_AT := 16
  const GW_AT := 18
  const OIF_AT := 34

  type Body = b: seq<char> | |b| == BODY_LEN witness seq(BODY_LEN, _ => NUL)

  datatype Msg = Msg(op: OpCode, l: LCode, body: Body)

  /** A message fresh from `calloc`. */
  const BLANK := Msg(CREATE, L3, Zeros(BODY_LEN))

  function DestField(b: Body): seq<char> { b[..IP_ADDR_LEN] }
  function GwField(b: Body): seq<char> { b[GW_AT..GW_AT + IP_ADDR_LEN] }
  function OifField(b: Body): seq<char> { b[OIF_AT..] }
  function MacField(b: Body): seq<char> { b[..MAC_ADDR_LEN] }

  function MaskOf(b: Body): nat { b[MASK_AT] as int + 256 * b[MASK_AT + 1] as int }

  function MaskBytes(mask: nat): (s: seq<char>)
    requires mask < 0x1_0000
    ensures |s| == 2
  {
    [(mask % 256) as char, (mask / 256) as char]
  }

  // ----- Meaning -----

  datatype Route = Route(dest: CStr, mask: nat, gw: CStr, oif: CStr)

  function RouteOf(b: Body): Route {
    Route(Str(DestField(b)), MaskOf(b), Str(GwField(b)), Str(OifField(b)))
  }

  function MacOf(b: Body): CStr { Str(MacField(b)) }

  /** What a message asks of the tables. */
  datatype Change =
    | AddRoute(route: Route)
    | SetRoute(route: Route)
    | DropRoute(dest: CStr, mask: nat)
    | AddMac(mac: CStr)
    | DropMac(mac: CStr)
    | Nothing

  function Effect(m: Msg): Change {
    match (m.l, m.op)
    case (L3, CREATE) => AddRoute(RouteOf(m.body))
    case (L3, UPDATE) => SetRoute(RouteOf(m.body))
    case (L3, DELETE) => DropRoute(Str(DestField(m.body)), MaskOf(m.body))
    case (L2, CREATE) => AddMac(MacOf(m.body))
    case (L2, DELETE) => DropMac(MacOf(m.body))
    case _ => Nothing
  }

  predicate IsOif(s: CStr) {
    IsWord(s) && |s| < OIF_LEN
  }

  predicate ValidRoute(r: Route) {
    IsIp(r.dest) && IsIp(r.gw) && r.mask <= MAX_MASK && IsOif(r.oif)
  }

  /** What a line can say of a route: a name that fills its field has no terminator. */
  predicate TypedRoute(r: Route) {
    IsIp(r.dest) && IsIp(r.gw) && r.mask <= 32 && IsWord(r.oif) && |r.oif| <= 32
  }

  /** The fields that a message of this kind is read by are terminated. */
  predicate Readable(l: LCode, b: Body) {
    if l == L3 then Terminated(DestField(b)) && Terminated(GwField(b)) && Terminated(OifField(b))
    else Terminated(MacField(b))
  }

  /** A message can be processed: its strings end inside their fields, or nothing is done. */
  predicate Ready(m: Msg) {
    m.op == NONE || Readable(m.l, m.body)
  }

  /** The same but for the interface name. */
  predicate Addressed(m: Msg) {
    m.op == NONE || (if m.l == L3 then Terminated(DestField(m.body)) && Terminated(GwField(m.body))
                     else Terminated(MacField(m.body)))
  }

  /** An interface name that fills its field. */
  predicate Unended(m: Msg) {
    m.op != NONE && m.l == L3 && !Terminated(OifField(m.body))
  }

  // ----- create_sync_message, over the words of the line -----

  /** Accepted and Flushed stand for the return value 0 and Rejected for -1;
      Flushed also empties the tables. Undefined marks the calls to which C gives no
      meaning: a missing mask word (a null pointer is read), a mask that `atoi`
      cannot represent, and an interface name that overruns its field. A name that
      just fills it is accepted; whether that has a meaning is decided where it is read. */
  datatype Outcome = Accepted | Flushed | Rejected | Undefined

  type Words = ts: seq<CStr> | forall t | t in ts :: IsWord(t) witness []

  /** `stored` is the fate of the IP address that the operator is asked for when a
      MAC entry is created. */
  function Parse(ts: Words, m: Msg, silent: bool, stored: bool): (Outcome, Msg) {
    if ts == [] then (Rejected, m)
    else
      assert ts[0] in ts;
      match ts[0][0]
      case 'C' => ParseTarget(ts, m.(op := CREATE), silent, stored)
      case 'U' => ParseTarget(ts, m.(op := UPDATE), silent, stored)
      case 'D' => ParseTarget(ts, m.(op := DELETE), silent, stored)
      case 'S' => (Accepted, m.(op := NONE))
      case 'F' => (Flushed, m.(op := NONE))
      case _ => (Rejected, m)
  }

  function ParseTarget(ts: Words, m: Msg, silent: bool, stored: bool): (Outcome, Msg) {
    if |ts| <= 1 then (Rejected, m)
    else if IsIp(ts[1]) then
      IpShape(ts[1]);
      ParseMask(ts, m.(l := L3, body := Put(m.body, 0, ts[1])))
    else if IsMac(ts[1]) then
      var m' := m.(l := L2, body := Put(m.body, 0, ts[1]));
      (if !silent && m.op == CREATE && !stored then Rejected else Accepted, m')
    else (Rejected, m)
  }

  function ParseMask(ts: Words, m: Msg): (Outcome, Msg) {
    if |ts| <= 2 then (Undefined, m)
    else if !AllDigits(ts[2]) then (Rejected, m)
    else if Value(ts[2]) > INT_MAX then (Undefined, m)
    else if Value(ts[2]) > MAX_MASK then (Rejected, m)
    else
      var m' := m.(body := Put(m.body, MASK_AT, MaskBytes(Value(ts[2]))));
      if m.op == CREATE || m.op == UPDATE then ParseHop(ts, m') else (Accepted, m')
  }

  function ParseHop(ts: Words, m: Msg): (Outcome, Msg) {
    if |ts| <= 3 || !IsIp(ts[3]) then (Rejected, m)
    else
      IpShape(ts[3]);
      var m' := m.(body := Put(m.body, GW_AT, ts[3]));
      if |ts| <= 4 then (Rejected, m')
      else if |ts[4]| > OIF_LEN then (Undefined, m')
      else (Accepted, m'.(body := Put(m'.body, OIF_AT, ts[4])))
  }

  // ----- How the writes show through the fields -----

  lemma PutInside(b: seq<char>, off: nat, s: seq<char>, lo: nat, hi: nat)
    requires lo <= off && off + |s| <= hi <= |b|
    ensures Put(b, off, s)[lo..hi] == Put(b[lo..hi], off - lo, s)
  {
  }

  lemma PutOutside(b: seq<char>, off: nat, s: seq<char>, lo: nat, hi: nat)
    requires lo <= hi <= |b| && off + |s| <= |b|
    requires off + |s| <= lo || hi <= off
    ensures Put(b, off, s)[lo..hi] == b[lo..hi]
  {
  }

  predicate CleanBody(b: Body) {
    Clean(DestField(b)) && Clean(GwField(b)) && Clean(OifField(b))
  }

  /** What a blank message reads as. */
  const NO_ROUTE := Route("", 0, "", "")

  lemma BlankClean()
    ensures CleanBody(BLANK.body) && RouteOf(BLANK.body) == NO_ROUTE
  {
    var b := BLANK.body;
    StrIs(DestField(b), "");
    StrIs(GwField(b), "");
    StrIs(OifField(b), "");
  }

  /** The fields other than the one written keep their bytes. */
  lemma PutDestFields(b: Body, s: string)
    requires |s| <= IP_ADDR_LEN
    ensures var r := Put(b, 0, s);
            && DestField(r) == Put(DestField(b), 0, s)
            && GwField(r) == GwField(b) && OifField(r) == OifField(b) && MaskOf(r) == MaskOf(b)
  {
    PutInside(b, 0, s, 0, IP_ADDR_LEN);
    PutOutside(b, 0, s, GW_AT, GW_AT + IP_ADDR_LEN);
    PutOutside(b, 0, s, OIF_AT, BODY_LEN);
  }

  lemma PutMaskFields(b: Body, mask: nat)
    requires mask < 0x1_0000
    ensures var r := Put(b, MASK_AT, MaskBytes(mask));
            && DestField(r) == DestField(b) && GwField(r) == GwField(b) && OifField(r) == OifField(b)
            && MaskOf(r) == mask && r[MASK_AT + 1] == (mask / 256) as char
  {
    var s := MaskBytes(mask);
    PutOutside(b, MASK_AT, s, 0, IP_ADDR_LEN);
    PutOutside(b, MASK_AT, s, GW_AT, GW_AT + IP_ADDR_LEN);
    PutOutside(b, MASK_AT, s, OIF_AT, BODY_LEN);
  }

  lemma PutGwFields(b: Body, s: string)
    requires |s| <= IP_ADDR_LEN
    ensures var r := Put(b, GW_AT, s);
            && GwField(r) == Put(GwField(b), 0, s)
            && DestField(r) == DestField(b) && OifField(r) == OifField(b) && MaskOf(r) == MaskOf(b)
  {
    PutInside(b, GW_AT, s, GW_AT, GW_AT + IP_ADDR_LEN);
    PutOutside(b, GW_AT, s, 0, IP_ADDR_LEN);
    PutOutside(b, GW_AT, s, OIF_AT, BODY_LEN);
  }

  lemma PutOifFields(b: Body, s: string)
    requires |s| <= OIF_LEN
    ensures var r := Put(b, OIF_AT, s);
            && OifField(r) == Put(OifField(b), 0, s)
            && DestField(r) == DestField(b) && GwField(r) == GwField(b) && MaskOf(r) == MaskOf(b)
  {
    PutInside(b, OIF_AT, s, OIF_AT, BODY_LEN);
    PutOutside(b, OIF_AT, s, 0, IP_ADDR_LEN);
    PutOutside(b, OIF_AT, s, GW_AT, GW_AT + IP_ADDR_LEN);
  }

  /** A route written over the remains of another: a field shows the new text and
      whatever of the old text is longer. */
  function OverlayRoute(r: Route, was: Route): Route {
    Route(Overlay(r.dest, was.dest), r.mask, Overlay(r.gw, was.gw), Overlay(r.oif, was.oif))
  }

  /** As `CleanBody`, or with an interface name that fills its field. */
  predicate CleanOrFull(b: Body) {
    Clean(DestField(b)) && Clean(GwField(b)) && (Clean(OifField(b)) || NUL !in OifField(b))
  }

  lemma OifReads(field: seq<char>, name: CStr)
    requires Clean(field) && |name| <= |field|
    ensures var r := Put(field, 0, name);
            && Str(r) == Overlay(name, Str(field))
            && if |name| < |field| then Clean(r) else NUL !in r && !Terminated(r)
  {
    if |name| < |field| {
      PutReads(field, name);
    } else {
      assert Put(field, 0, name) == name;
      StrWhole(name);
    }
  }

  /** What an accepted gateway and interface leave in a message that still holds
      the text of an earlier line. */
  lemma HopReads(ts: Words, m: Msg)
    requires CleanBody(m.body)
    ensures var (r, m') := ParseHop(ts, m);
            && CleanOrFull(m'.body) && m'.op == m.op && m'.l == m.l
            && (CleanBody(m'.body) <==> !(r == Accepted && |ts[4]| == OIF_LEN))
            && (r == Accepted <==> |ts| > 4 && IsIp(ts[3]) && |ts[4]| <= OIF_LEN)
            && (r == Accepted ==>
                  RouteOf(m'.body) == RouteOf(m.body).(gw := Overlay(ts[3], RouteOf(m.body).gw),
                                                       oif := Overlay(ts[4], RouteOf(m.body).oif)))
  {
    if |ts| > 3 && IsIp(ts[3]) {
      IpShape(ts[3]);
      assert ts[3] in ts;
      PutGwFields(m.body, ts[3]);
      PutReads(GwField(m.body), ts[3]);
      var b := Put(m.body, GW_AT, ts[3]);
      if |ts| > 4 && |ts[4]| <= OIF_LEN {
        assert ts[4] in ts;
        PutOifFields(b, ts[4]);
        OifReads(OifField(b), ts[4]);
      }
    }
  }

  predicate TakesHop(op: OpCode) {
    op == CREATE || op == UPDATE
  }

  /** The same from the mask on. */
  lemma MaskReads(ts: Words, m: Msg)
    requires CleanBody(m.body)
    ensures var (r, m') := ParseMask(ts, m);
            && CleanOrFull(m'.body) && m'.op == m.op && m'.l == m.l
            && (CleanBody(m'.body) <==> !(r == Accepted && TakesHop(m.op) && |ts[4]| == OIF_LEN))
            && (r == Accepted <==>
                  && |ts| > 2 && AllDigits(ts[2]) && Value(ts[2]) <= MAX_MASK
                  && (TakesHop(m.op) ==> |ts| > 4 && IsIp(ts[3]) && |ts[4]| <= OIF_LEN))
            && (r == Accepted ==>
                  var r0 := RouteOf(m.body).(mask := Value(ts[2]));
                  RouteOf(m'.body) == if TakesHop(m.op)
                                      then r0.(gw := Overlay(ts[3], r0.gw), oif := Overlay(ts[4], r0.oif))
                                      else r0)
  {
    if |ts| > 2 && AllDigits(ts[2]) && Value(ts[2]) <= MAX_MASK {
      PutMaskFields(m.body, Value(ts[2]));
      var m1 := m.(body := Put(m.body, MASK_AT, MaskBytes(Value(ts[2]))));
      assert RouteOf(m1.body) == RouteOf(m.body).(mask := Value(ts[2]));
      HopReads(ts, m1);
    }
  }

  lemma DestReads(b: Body, dest: CStr)
    requires CleanBody(b) && IsIp(dest)
    ensures |dest| <= IP_ADDR_LEN && CleanBody(Put(b, 0, dest))
    ensures RouteOf(Put(b, 0, dest)) == RouteOf(b).(dest := Overlay(dest, RouteOf(b).dest))
  {
    IpShape(dest);
    PutDestFields(b, dest);
    PutReads(DestField(b), dest);
  }

  lemma MacReads(b: Body, mac: CStr)
    requires IsMac(mac) && b[MAC_ADDR_LEN - 1] == NUL
    ensures MacOf(Put(b, 0, mac)) == mac
  {
    assert NUL !in mac;
    StrIs(MacField(Put(b, 0, mac)), mac);
  }

  // ----- Meaning of a line -----

  predicate Verb(ts: Words, c: char) {
    ts != [] && ts[0] != "" && ts[0][0] == c
  }

  predicate NamesKey(ts: Words, dest: CStr, mask: nat) {
    |ts| > 2 && ts[1] == dest && IsIp(dest) && AllDigits(ts[2]) && Value(ts[2]) == mask <= 32
  }

  predicate NamesRoute(ts: Words, r: Route) {
    |ts| > 4 && NamesKey(ts, r.dest, r.mask) && ts[3] == r.gw && ts[4] == r.oif && TypedRoute(r)
  }

  predicate NamesMac(ts: Words, mac: CStr) {
    |ts| > 1 && ts[1] == mac && IsMac(mac)
  }

  /** The operator's grammar, stated without the message: what the words after the
      verb ask for, and what a whole line asks for. */
  predicate TargetDenotes(ts: Words, op: OpCode, stored: bool, c: Change) {
    match c
    case AddRoute(r) => op == CREATE && NamesRoute(ts, r)
    case SetRoute(r) => op == UPDATE && NamesRoute(ts, r)
    case DropRoute(dest, mask) => op == DELETE && NamesKey(ts, dest, mask)
    case AddMac(mac) => op == CREATE && NamesMac(ts, mac) && stored
    case DropMac(mac) => op == DELETE && NamesMac(ts, mac)
    case Nothing => op == UPDATE && |ts| > 1 && IsMac(ts[1])
  }

  predicate Denotes(ts: Words, stored: bool, c: Change) {
    || (Verb(ts, 'C') && TargetDenotes(ts, CREATE, stored, c))
    || (Verb(ts, 'U') && TargetDenotes(ts, UPDATE, stored, c))
    || (Verb(ts, 'D') && TargetDenotes(ts, DELETE, stored, c))
    || (Verb(ts, 'S') && c == Nothing)
  }

  /** What a line about a route leaves in a blank message. */
  lemma RouteParses(ts: Words, op: OpCode, stored: bool)
    requires |ts| > 1 && IsIp(ts[1])
    ensures var (r, m) := ParseTarget(ts, BLANK.(op := op), false, stored);
            && m.l == L3 && m.op == op
            && (r == Accepted <==>
                  && |ts| > 2 && AllDigits(ts[2]) && Value(ts[2]) <= MAX_MASK
                  && (TakesHop(op) ==> |ts| > 4 && IsIp(ts[3]) && |ts[4]| <= OIF_LEN))
            && (r == Accepted ==>
                  RouteOf(m.body) == if TakesHop(op) then Route(ts[1], Value(ts[2]), ts[3], ts[4])
                                     else Route(ts[1], Value(ts[2]), "", ""))
  {
    BlankClean();
    assert ts[1] in ts;
    DestReads(BLANK.body, ts[1]);
    MaskReads(ts, Msg(op, L3, Put(BLANK.body, 0, ts[1])));
  }

  lemma RouteMeaning(ts: Words, op: OpCode, stored: bool, c: Change)
    requires |ts| > 1 && IsIp(ts[1]) && op != NONE
    ensures var (r, m) := ParseTarget(ts, BLANK.(op := op), false, stored);
            r == Accepted && Effect(m) == c <==> TargetDenotes(ts, op, stored, c)
  {
    RouteParses(ts, op, stored);
    IpIsNotMac(ts[1]);
    if |ts| > 4 {
      assert ts[4] in ts;
    }
  }

  lemma MacMeaning(ts: Words, op: OpCode, stored: bool, c: Change)
    requires |ts| > 1 && !IsIp(ts[1]) && op != NONE
    ensures var (r, m) := ParseTarget(ts, BLANK.(op := op), false, stored);
            r == Accepted && Effect(m) == c <==> TargetDenotes(ts, op, stored, c)
  {
    if IsMac(ts[1]) {
      MacReads(BLANK.body, ts[1]);
    }
  }

  lemma ParseByVerb(ts: Words, m: Msg, silent: bool, stored: bool)
    ensures var p := Parse(ts, m, silent, stored);
            if Verb(ts, 'C') then p == ParseTarget(ts, m.(op := CREATE), silent, stored)
            else if Verb(ts, 'U') then p == ParseTarget(ts, m.(op := UPDATE), silent, stored)
            else if Verb(ts, 'D') then p == ParseTarget(ts, m.(op := DELETE), silent, stored)
            else if Verb(ts, 'S') then p == (Accepted, m.(op := NONE))
            else if Verb(ts, 'F') then p == (Flushed, m.(op := NONE))
            else p == (Rejected, m)
  {
    if ts != [] {
      assert ts[0] in ts;
    }
  }

  /** A line written into a blank message is accepted exactly when the grammar gives
      it a meaning, and the message then means just that. */
  lemma ParseMeaning(ts: Words, stored: bool, c: Change)
    ensures var (r, m) := Parse(ts, BLANK, false, stored);
            r == Accepted && Effect(m) == c <==> Denotes(ts, stored, c)
  {
    ParseByVerb(ts, BLANK, false, stored);
    if Verb(ts, 'C') { TargetMeaning(ts, CREATE, stored, c); }
    if Verb(ts, 'U') { TargetMeaning(ts, UPDATE, stored, c); }
    if Verb(ts, 'D') { TargetMeaning(ts, DELETE, stored, c); }
  }

  lemma TargetMeaning(ts: Words, op: OpCode, stored: bool, c: Change)
    requires op != NONE
    ensures var (r, m) := ParseTarget(ts, BLANK.(op := op), false, stored);
            r == Accepted && Effect(m) == c <==> TargetDenotes(ts, op, stored, c)
  {
    if |ts| > 1 {
      if IsIp(ts[1]) { RouteMeaning(ts, op, stored, c); } else { MacMeaning(ts, op, stored, c); }
    }
  }

  /** The words of a line to which C gives no meaning: a route without a mask, with a mask
      that `atoi` cannot represent, or with an interface name that overruns its field. */
  predicate Breaks(ts: Words) {
    && (Verb(ts, 'C') || Verb(ts, 'U') || Verb(ts, 'D'))
    && |ts| > 1 && IsIp(ts[1])
    && (|ts| == 2 || (AllDigits(ts[2]) && (Value(ts[2]) > 0x7fff_ffff || (Value(ts[2]) <= 32 && Overruns(ts)))))
  }

  predicate Overruns(ts: Words) {
    !Verb(ts, 'D') && |ts| > 4 && IsIp(ts[3]) && |ts[4]| > 32
  }

  /** Instead of -1, which is promised for every bad line, there is no result at all on
      exactly these, whatever the message held before. */
  lemma BreaksExact(ts: Words, m: Msg, silent: bool, stored: bool)
    ensures Parse(ts, m, silent, stored).0 == Undefined <==> Breaks(ts)
  {
    ParseByVerb(ts, m, silent, stored);
    if Verb(ts, 'C') { TargetBreaks(ts, m.(op := CREATE), silent, stored); }
    if Verb(ts, 'U') { TargetBreaks(ts, m.(op := UPDATE), silent, stored); }
    if Verb(ts, 'D') { TargetBreaks(ts, m.(op := DELETE), silent, stored); }
  }

  lemma TargetBreaks(ts: Words, m: Msg, silent: bool, stored: bool)
    requires Verb(ts, 'C') || Verb(ts, 'U') || Verb(ts, 'D')
    requires m.op != NONE && (m.op == DELETE <==> Verb(ts, 'D'))
    ensures ParseTarget(ts, m, silent, stored).0 == Undefined <==> Breaks(ts)
  {
  }

  lemma CleanIsReadable(b: Body)
    requires CleanBody(b)
    ensures Readable(L3, b)
  {
  }

  lemma FullIsUnended(b: Body)
    requires CleanOrFull(b)
    ensures CleanBody(b) <==> Terminated(OifField(b))
  {
    if NUL !in OifField(b) {
      StrWhole(OifField(b));
    }
  }

  lemma MacIsReadable(b: Body, mac: CStr)
    requires IsMac(mac) && MacOf(b) == mac
    ensures Readable(L2, b)
  {
  }

  /** The words of a line with an interface name that fills its field. */
  predicate Fills(ts: Words) {
    && (Verb(ts, 'C') || Verb(ts, 'U'))
    && |ts| > 4 && IsIp(ts[1]) && |ts[4]| == 32
  }

  /** An accepted command leaves a message whose strings end inside their fields, with
      exactly that exception. */
  lemma ParseReady(ts: Words, stored: bool)
    ensures var (r, m) := Parse(ts, BLANK, false, stored);
            r == Accepted || r == Flushed ==> Addressed(m) && (Unended(m) <==> Fills(ts)) && (Ready(m) <==> !Unended(m))
  {
    ParseByVerb(ts, BLANK, false, stored);
    if Verb(ts, 'C') { TargetReady(ts, CREATE, stored); }
    if Verb(ts, 'U') { TargetReady(ts, UPDATE, stored); }
    if Verb(ts, 'D') { TargetReady(ts, DELETE, stored); }
  }

  lemma TargetReady(ts: Words, op: OpCode, stored: bool)
    requires op != NONE
    ensures var (r, m) := ParseTarget(ts, BLANK.(op := op), false, stored);
            r == Accepted ==>
              && Addressed(m) && (Ready(m) <==> !Unended(m))
              && (Unended(m) <==> TakesHop(op) && |ts| > 4 && IsIp(ts[1]) && |ts[4]| == OIF_LEN)
  {
    if |ts| <= 1 {
    } else if IsIp(ts[1]) {
      BlankClean();
      DestReads(BLANK.body, ts[1]);
      var m1 := Msg(op, L3, Put(BLANK.body, 0, ts[1]));
      MaskReads(ts, m1);
      FullIsUnended(ParseMask(ts, m1).1.body);
    } else if IsMac(ts[1]) {
      MacReads(BLANK.body, ts[1]);
      MacIsReadable(Put(BLANK.body, 0, ts[1]), ts[1]);
    }
  }
}
