/** Messages in memory, the lists whose nodes point into them, and what processing a
    message means for the bytes of the entries. */
module Sync {
  import opened CString
  import opened Message
  import opened Table
  import opened LinkedList

  /** sync_msg_t; a list entry is a pointer to `body`. */
  class SyncMsg {
    var opCode: OpCode
    var lCode: LCode
    const body: array<char>

    /** calloc */
    constructor ()
      ensures fresh(body) && body.Length == BODY_LEN && Value() == BLANK
    {
      opCode, lCode := CREATE, L3;
      body := new char[BODY_LEN](_ => NUL);
      new;
      assert body[..] == Zeros(BODY_LEN);
    }

    ghost function Value(): Msg
      requires body.Length == BODY_LEN
      reads this, body
    {
      Msg(opCode, lCode, body[..])
    }
  }

  type List = Dll<array<char>>

  /** A proper list of distinct entry buffers. */
  ghost predicate Holds(d: List)
    reads d, d.spine
  {
    && d.Valid()
    && (forall i | 0 <= i < |d.items| :: d.items[i].Length == BODY_LEN)
    && (forall i, j | 0 <= i < j < |d.items| :: d.items[i] != d.items[j])
  }

  /** The bytes of the entries, and what they mean. */
  ghost function Rows(items: seq<array<char>>): (rows: seq<Body>)
    requires forall i | 0 <= i < |items| :: items[i].Length == BODY_LEN
    reads items
    ensures |rows| == |items|
    ensures forall i | 0 <= i < |items| :: rows[i] == items[i][..]
  {
    seq(|items|, i requires 0 <= i < |items| && items[i].Length == BODY_LEN reads items => items[i][..])
  }

  function Routes(rows: seq<Body>): (rt: seq<Route>)
    ensures |rt| == |rows|
  {
    seq(|rows|, i requires 0 <= i < |rows| => RouteOf(rows[i]))
  }

  function Macs(rows: seq<Body>): (ml: seq<CStr>)
    ensures |ml| == |rows|
  {
    seq(|rows|, i requires 0 <= i < |rows| => MacOf(rows[i]))
  }

  predicate AllReadable(l: LCode, rows: seq<Body>) {
    forall i | 0 <= i < |rows| :: Readable(l, rows[i])
  }

  // ----- Bytes -----

  method Memcpy(buf: array<char>, off: nat, s: seq<char>)
    requires off + |s| <= buf.Length
    modifies buf
    ensures buf[..] == Put(old(buf[..]), off, s)
  {
    forall i | 0 <= i < |s| {
      buf[off + i] := s[i];
    }
  }

  /** A message in memory with this value. */
  method MessageOf(msg: Msg) returns (m: SyncMsg)
    ensures fresh(m) && fresh(m.body) && m.body.Length == BODY_LEN && m.Value() == msg
  {
    m := new SyncMsg();
    m.opCode, m.lCode := msg.op, msg.l;
    Memcpy(m.body, 0, msg.body);
  }

  // ----- What a message does to the bytes of the entries -----

  /** An entry after its gateway and its interface have been cleared and copied over. */
  function Overwritten(b: Body, gw: CStr, oif: CStr): Body
    requires |gw| < IP_ADDR_LEN && |oif| < OIF_LEN
  {
    Put(Put(Put(Put(b, GW_AT, Zeros(IP_ADDR_LEN)), OIF_AT, Zeros(OIF_LEN)), GW_AT, gw), OIF_AT, oif)
  }

  lemma OverwrittenReads(b: Body, gw: CStr, oif: CStr)
    requires |gw| < IP_ADDR_LEN && |oif| < OIF_LEN
    ensures RouteOf(Overwritten(b, gw, oif)) == RouteOf(b).(gw := gw, oif := oif)
    ensures Readable(L3, b) ==> Readable(L3, Overwritten(b, gw, oif))
  {
    var b1 := Put(b, GW_AT, Zeros(IP_ADDR_LEN));
    var b2 := Put(b1, OIF_AT, Zeros(OIF_LEN));
    var b3 := Put(b2, GW_AT, gw);
    PutGwFields(b, Zeros(IP_ADDR_LEN));
    PutOifFields(b1, Zeros(OIF_LEN));
    PutGwFields(b2, gw);
    PutOifFields(b3, oif);
    StrIs(GwField(Overwritten(b, gw, oif)), gw);
    StrIs(OifField(Overwritten(b, gw, oif)), oif);
  }

  method Update(entry: array<char>, gw: CStr, oif: CStr)
    requires entry.Length == BODY_LEN && |gw| < IP_ADDR_LEN && |oif| < OIF_LEN
    modifies entry
    ensures entry[..] == Overwritten(old(entry[..]), gw, oif)
  {
    Memcpy(entry, GW_AT, Zeros(IP_ADDR_LEN));
    Memcpy(entry, OIF_AT, Zeros(OIF_LEN));
    Memcpy(entry, GW_AT, gw);
    Memcpy(entry, OIF_AT, oif);
  }

  /** What a message does to the bytes of the entries of a routing table. */
  function ProcessedRoutes(rows: seq<Body>, m: Msg): seq<Body>
    requires Addressed(m) && m.l == L3
  {
    var r := RouteOf(m.body);
    var k := FindRoute(Routes(rows), r.dest, r.mask);
    match m.op
    case CREATE => if k == |rows| then rows + [m.body] else rows
    case UPDATE => if k < |rows| && |r.oif| < OIF_LEN then rows[k := Overwritten(rows[k], r.gw, r.oif)] else rows
    case DELETE => if k < |rows| then Without(rows, k) else rows
    case NONE => rows
  }

  function ProcessedMacs(rows: seq<Body>, m: Msg): seq<Body> {
    var k := FindMac(Macs(rows), MacOf(m.body));
    match m.op
    case CREATE => if k == |rows| then rows + [m.body] else rows
    case DELETE => if k < |rows| then Without(rows, k) else rows
    case _ => rows
  }

  lemma RoutesWithout(rows: seq<Body>, k: nat)
    requires k < |rows|
    ensures Routes(Without(rows, k)) == Without(Routes(rows), k)
    ensures Macs(Without(rows, k)) == Without(Macs(rows), k)
  {
  }

  lemma RoutesSnoc(rows: seq<Body>, b: Body)
    ensures Routes(rows + [b]) == Routes(rows) + [RouteOf(b)]
    ensures Macs(rows + [b]) == Macs(rows) + [MacOf(b)]
  {
  }

  /** Read as a table, that is what `ApplyRt` does. */
  lemma ProcessedRoutesApply(rows: seq<Body>, m: Msg)
    requires m.l == L3 && Addressed(m) && AllReadable(L3, rows)
    requires ReadsName(Routes(rows), m) ==> Terminated(OifField(m.body))
    ensures Routes(ProcessedRoutes(rows, m)) == ApplyRt(Routes(rows), Effect(m))
    ensures AllReadable(L3, ProcessedRoutes(rows, m))
  {
    var r := RouteOf(m.body);
    var k := FindRoute(Routes(rows), r.dest, r.mask);
    match m.op
    case CREATE => RoutesSnoc(rows, m.body);
    case UPDATE =>
      if k < |rows| {
        OverwrittenApplies(rows, k, r);
      }
    case DELETE =>
      if k < |rows| {
        RoutesWithout(rows, k);
        StillReadable(L3, rows, k);
      }
    case NONE =>
  }

  lemma OverwrittenApplies(rows: seq<Body>, k: nat, r: Route)
    requires k < |rows| && AllReadable(L3, rows) && |r.gw| < IP_ADDR_LEN && |r.oif| < OIF_LEN
    ensures var b := Overwritten(rows[k], r.gw, r.oif);
            && Routes(rows[k := b]) == Routes(rows)[k := Routes(rows)[k].(gw := r.gw, oif := r.oif)]
            && AllReadable(L3, rows[k := b])
  {
    OverwrittenReads(rows[k], r.gw, r.oif);
    RoutesUpdate(rows, k, Overwritten(rows[k], r.gw, r.oif));
  }

  lemma RoutesUpdate(rows: seq<Body>, k: nat, b: Body)
    requires k < |rows|
    ensures Routes(rows[k := b]) == Routes(rows)[k := RouteOf(b)]
  {
  }

  lemma ProcessedMacsApply(rows: seq<Body>, m: Msg)
    requires m.l == L2 && Ready(m) && AllReadable(L2, rows)
    ensures Macs(ProcessedMacs(rows, m)) == ApplyMl(Macs(rows), Effect(m))
    ensures AllReadable(L2, ProcessedMacs(rows, m))
  {
    var k := FindMac(Macs(rows), MacOf(m.body));
    match m.op
    case CREATE => RoutesSnoc(rows, m.body);
    case DELETE =>
      if k < |rows| {
        RoutesWithout(rows, k);
      }
    case _ =>
  }

  lemma StillReadable(l: LCode, rows: seq<Body>, k: nat)
    requires k < |rows| && AllReadable(l, rows)
    ensures AllReadable(l, Without(rows, k))
  {
    assert forall i | 0 <= i < |rows| - 1 :: Without(rows, k)[i] == rows[if i < k then i else i + 1];
  }

  /** Taking an entry out of a list leaves the bytes of the others alone. */
  method DeleteEntry(d: List, node: Node<array<char>>, ghost k: nat)
    requires Holds(d) && k < |d.items| && node == d.spine[k + 1]
    modifies d, d.spine
    ensures Holds(d) && d.items == Without(old(d.items), k)
    ensures Rows(d.items) == Without(old(Rows(d.items)), k)
    ensures forall x | x in d.spine :: x in old(d.spine)
  {
    d.Del(node, k);
  }
}
