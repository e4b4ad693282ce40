/** The replicated tables as insertion-ordered keyed lists, and what a message does to them. */
module Table {
  import opened CString
  import opened Message

  datatype Tables = Tables(rt: seq<Route>, ml: seq<CStr>)

  const EMPTY := Tables([], [])

  /** The position of the first route with this key, or the length if there is none. */
  function FindRoute(rt: seq<Route>, dest: CStr, mask: nat): (i: nat)
    ensures i <= |rt|
    ensures i < |rt| ==> rt[i].dest == dest && rt[i].mask == mask
    ensures forall j | 0 <= j < i :: !(rt[j].dest == dest && rt[j].mask == mask)
  {
    if rt == [] || (rt[0].dest == dest && rt[0].mask == mask) then 0
    else 1 + FindRoute(rt[1..], dest, mask)
  }

  function FindMac(ml: seq<CStr>, mac: CStr): (i: nat)
    ensures i <= |ml|
    ensures i < |ml| ==> ml[i] == mac
    ensures forall j | 0 <= j < i :: ml[j] != mac
  {
    if ml == [] || ml[0] == mac then 0 else 1 + FindMac(ml[1..], mac)
  }

  lemma FirstRoute(rt: seq<Route>, dest: CStr, mask: nat, i: nat)
    requires i <= |rt|
    requires i < |rt| ==> rt[i].dest == dest && rt[i].mask == mask
    requires forall j | 0 <= j < i :: !(rt[j].dest == dest && rt[j].mask == mask)
    ensures FindRoute(rt, dest, mask) == i
  {
  }

  lemma FirstMac(ml: seq<CStr>, mac: CStr, i: nat)
    requires i <= |ml| && (i < |ml| ==> ml[i] == mac)
    requires forall j | 0 <= j < i :: ml[j] != mac
    ensures FindMac(ml, mac) == i
  {
  }

  function Without<T>(s: seq<T>, i: nat): seq<T>
    requires i < |s|
  {
    s[..i] + s[i + 1..]
  }

  lemma WithoutIn<T>(s: seq<T>, k: nat)
    requires k < |s|
    ensures forall x | x in Without(s, k) :: x in s
  {
  }

  function ApplyRt(rt: seq<Route>, c: Change): seq<Route> {
    match c
    case AddRoute(r) => if FindRoute(rt, r.dest, r.mask) == |rt| then rt + [r] else rt
    case SetRoute(r) =>
      var i := FindRoute(rt, r.dest, r.mask);
      if i < |rt| then rt[i := rt[i].(gw := r.gw, oif := r.oif)] else rt
    case DropRoute(dest, mask) =>
      var i := FindRoute(rt, dest, mask);
      if i < |rt| then Without(rt, i) else rt
    case _ => rt
  }

  function ApplyMl(ml: seq<CStr>, c: Change): seq<string> {
    match c
    case AddMac(mac) => if FindMac(ml, mac) == |ml| then ml + [mac] else ml
    case DropMac(mac) =>
      var i := FindMac(ml, mac);
      if i < |ml| then Without(ml, i) else ml
    case _ => ml
  }

  function Apply(t: Tables, c: Change): Tables {
    Tables(ApplyRt(t.rt, c), ApplyMl(t.ml, c))
  }

  /** A message changes only the table it is for. */
  lemma OneTable(t: Tables, m: Msg)
    ensures Apply(t, Effect(m)) == if m.l == L3 then t.(rt := ApplyRt(t.rt, Effect(m)))
                                   else t.(ml := ApplyMl(t.ml, Effect(m)))
  {
  }

  /** The tables after the messages have been processed in order. */
  function Replay(t: Tables, ms: seq<Msg>): Tables
    decreases |ms|
  {
    if ms == [] then t else Replay(Apply(t, Effect(ms[0])), ms[1..])
  }

  lemma {:induction false} ReplayAppend(t: Tables, a: seq<Msg>, b: seq<Msg>)
    ensures Replay(t, a + b) == Replay(Replay(t, a), b)
    decreases |a|
  {
    if a == [] {
      assert a + b == b;
    } else {
      assert (a + b)[1..] == a[1..] + b;
      ReplayAppend(Apply(t, Effect(a[0])), a[1..], b);
    }
  }

  // ----- Invariants of every table -----

  ghost predicate UniqueRoutes(rt: seq<Route>) {
    forall i, j | 0 <= i < j < |rt| :: !(rt[i].dest == rt[j].dest && rt[i].mask == rt[j].mask)
  }

  ghost predicate UniqueMacs(ml: seq<CStr>) {
    forall i, j | 0 <= i < j < |ml| :: ml[i] != ml[j]
  }

  ghost predicate Unique(t: Tables) { UniqueRoutes(t.rt) && UniqueMacs(t.ml) }

  lemma ApplyUnique(t: Tables, c: Change)
    requires Unique(t)
    ensures Unique(Apply(t, c))
  {
  }

  // ----- A reference definition: a dictionary with the order of first insertion -----

  datatype Hop = Absent | Via(gw: CStr, oif: CStr)

  function Lookup(rt: seq<Route>, dest: CStr, mask: nat): Hop {
    var i := FindRoute(rt, dest, mask);
    if i < |rt| then Via(rt[i].gw, rt[i].oif) else Absent
  }

  function Keys(rt: seq<Route>): seq<(CStr, nat)> {
    seq(|rt|, i requires 0 <= i < |rt| => (rt[i].dest, rt[i].mask))
  }

  lemma LookupAfterAdd(rt: seq<Route>, r: Route, dest: CStr, mask: nat)
    ensures var was, now := Lookup(rt, dest, mask), Lookup(ApplyRt(rt, AddRoute(r)), dest, mask);
            now == if (r.dest, r.mask) == (dest, mask) && was.Absent? then Via(r.gw, r.oif) else was
  {
    var rt' := ApplyRt(rt, AddRoute(r));
    assert forall j | 0 <= j < |rt| :: rt'[j] == rt[j];
    if FindRoute(rt, r.dest, r.mask) == |rt| {
      assert rt'[|rt|] == r;
    }
  }

  lemma LookupAfterSet(rt: seq<Route>, r: Route, dest: CStr, mask: nat)
    requires UniqueRoutes(rt)
    ensures var was, now := Lookup(rt, dest, mask), Lookup(ApplyRt(rt, SetRoute(r)), dest, mask);
            now == if (r.dest, r.mask) == (dest, mask) && was.Via? then Via(r.gw, r.oif) else was
  {
    var rt' := ApplyRt(rt, SetRoute(r));
    var i, i' := FindRoute(rt, dest, mask), FindRoute(rt', dest, mask);
    if i < |rt| {
      assert rt'[i].dest == dest && rt'[i].mask == mask;
    }
    if i' < |rt| {
      assert rt[i'].dest == dest && rt[i'].mask == mask;
    }
  }

  lemma LookupAfterDrop(rt: seq<Route>, d: CStr, m: nat, dest: CStr, mask: nat)
    requires UniqueRoutes(rt)
    ensures var was, now := Lookup(rt, dest, mask), Lookup(ApplyRt(rt, DropRoute(d, m)), dest, mask);
            now == if (d, m) == (dest, mask) then Absent else was
  {
    var rt' := ApplyRt(rt, DropRoute(d, m));
    var i, k := FindRoute(rt, dest, mask), FindRoute(rt, d, m);
    if k < |rt| {
      assert forall j | 0 <= j < |rt'| :: rt'[j] == rt[if j < k then j else j + 1];
      if i < |rt| && i != k {
        assert rt'[if i < k then i else i - 1] == rt[i];
      }
    }
  }

  /** Looking up any key after a change: an addition only counts for a new key, an
      overwrite only for an old one, and one deletion makes the key absent. */
  lemma LookupAfter(rt: seq<Route>, c: Change, dest: CStr, mask: nat)
    requires UniqueRoutes(rt)
    ensures var was, now := Lookup(rt, dest, mask), Lookup(ApplyRt(rt, c), dest, mask);
            match c
            case AddRoute(r) =>
              now == if (r.dest, r.mask) == (dest, mask) && was.Absent? then Via(r.gw, r.oif) else was
            case SetRoute(r) =>
              now == if (r.dest, r.mask) == (dest, mask) && was.Via? then Via(r.gw, r.oif) else was
            case DropRoute(d, m) => now == if (d, m) == (dest, mask) then Absent else was
            case _ => now == was
  {
    match c
    case AddRoute(r) => LookupAfterAdd(rt, r, dest, mask);
    case SetRoute(r) => LookupAfterSet(rt, r, dest, mask);
    case DropRoute(d, m) => LookupAfterDrop(rt, d, m, dest, mask);
    case _ =>
  }

  /** The order of the keys: new keys go to the end and nothing else moves. */
  lemma KeysAfter(rt: seq<Route>, c: Change)
    ensures var ks, ks' := Keys(rt), Keys(ApplyRt(rt, c));
            match c
            case AddRoute(r) => ks' == if (r.dest, r.mask) in ks then ks else ks + [(r.dest, r.mask)]
            case DropRoute(d, m) =>
              if (d, m) in ks then exists i :: 0 <= i < |ks| && ks[i] == (d, m) && ks' == Without(ks, i) else ks' == ks
            case _ => ks' == ks
  {
    match c
    case AddRoute(r) =>
      var i := FindRoute(rt, r.dest, r.mask);
      if i < |rt| {
        assert Keys(rt)[i] == (r.dest, r.mask);
      } else {
        assert Keys(rt + [r]) == Keys(rt) + [(r.dest, r.mask)];
      }
    case SetRoute(r) =>
    case DropRoute(d, m) =>
      var i := FindRoute(rt, d, m);
      if i < |rt| {
        assert Keys(rt)[i] == (d, m);
        assert Keys(Without(rt, i)) == Without(Keys(rt), i);
      }
    case _ =>
  }

  /** The MAC list is a set with an order. */
  lemma MacsAfter(ml: seq<CStr>, c: Change)
    requires UniqueMacs(ml)
    ensures var ml' := ApplyMl(ml, c);
            match c
            case AddMac(mac) => ml' == if mac in ml then ml else ml + [mac]
            case DropMac(mac) =>
              && mac !in ml'
              && (mac !in ml ==> ml' == ml)
              && (mac in ml ==> exists i :: 0 <= i < |ml| && ml[i] == mac && ml' == Without(ml, i))
            case _ => ml' == ml
  {
    match c
    case AddMac(mac) =>
    case DropMac(mac) =>
      var i := FindMac(ml, mac);
      if i < |ml| {
        assert ml[i] == mac && ApplyMl(ml, c) == Without(ml, i);
      }
    case _ =>
  }

  // ----- Interface names that do not end -----

  /** Processing a message looks at its interface name in two cases: a new entry is
      printed, and an old one is overwritten by what `strlen` finds. */
  predicate ReadsName(rt: seq<Route>, m: Msg) {
    && m.l == L3
    && var r := RouteOf(m.body);
       var hop := Lookup(rt, r.dest, r.mask);
       (m.op == CREATE && hop.Absent?) || (m.op == UPDATE && hop.Via?)
  }

  /** Then the name has to end; to read on beyond its field has no meaning in C. */
  predicate Defined(t: Tables, m: Msg) {
    ReadsName(t.rt, m) ==> Terminated(OifField(m.body))
  }

  /** All of the messages, processed in order, have a meaning. */
  predicate Smooth(t: Tables, ms: seq<Msg>)
    decreases |ms|
  {
    ms != [] ==> Defined(t, ms[0]) && Smooth(Apply(t, Effect(ms[0])), ms[1..])
  }

  lemma ReadyDefined(t: Tables, m: Msg)
    requires Ready(m)
    ensures Defined(t, m)
  {
  }

  lemma {:induction false} ReadySmooth(t: Tables, ms: seq<Msg>)
    requires forall i | 0 <= i < |ms| :: Ready(ms[i])
    ensures Smooth(t, ms)
    decreases |ms|
  {
    if ms != [] {
      ReadySmooth(Apply(t, Effect(ms[0])), ms[1..]);
    }
  }

  lemma {:induction false} SmoothAppend(t: Tables, a: seq<Msg>, b: seq<Msg>)
    ensures Smooth(t, a + b) <==> Smooth(t, a) && Smooth(Replay(t, a), b)
    decreases |a|
  {
    if a == [] {
      assert a + b == b;
    } else {
      assert (a + b)[1..] == a[1..] + b;
      SmoothAppend(Apply(t, Effect(a[0])), a[1..], b);
    }
  }
}
