/** A client that a flush has emptied reads on what was written for its old tables. When
    do both, the emptied tables and the old ones, come to agree? In terms of keys. */
module Agreement {
  import opened CString
  import opened Message
  import opened Table
  import opened Protocol
  import opened Replication
  import opened Flags

  type Key = (CStr, nat)

  function KeyOf(r: Route): Key {
    (r.dest, r.mask)
  }

  function Held(rt: seq<Route>): set<Key> {
    set i | 0 <= i < |rt| :: KeyOf(rt[i])
  }

  /** A routing table after a sequence of changes. */
  function Fold(rt: seq<Route>, cs: seq<Change>): seq<Route> {
    if cs == [] then rt else ApplyRt(Fold(rt, cs[..|cs| - 1]), cs[|cs| - 1])
  }

  /** The keys held at first that no change has dropped yet. */
  function Left(rt: seq<Route>, cs: seq<Change>): set<Key> {
    set k | k in Held(rt) && DropRoute(k.0, k.1) !in cs
  }

  /** The entries with other keys than these. */
  function Outside(rt: seq<Route>, ks: set<Key>): seq<Route> {
    if rt == [] then []
    else
      var init, last := Outside(rt[..|rt| - 1], ks), rt[|rt| - 1];
      if KeyOf(last) in ks then init else init + [last]
  }

  predicate About(c: Change, k: Key) {
    match c
    case AddRoute(r) => KeyOf(r) == k
    case SetRoute(r) => KeyOf(r) == k
    case DropRoute(dest, mask) => (dest, mask) == k
    case _ => false
  }

  predicate AboutRoutes(c: Change) {
    c.AddRoute? || c.SetRoute? || c.DropRoute?
  }

  /** The key a change of the routing table is about. */
  function Subject(c: Change): (k: Key)
    requires AboutRoutes(c)
    ensures About(c, k)
  {
    match c
    case AddRoute(r) => KeyOf(r)
    case SetRoute(r) => KeyOf(r)
    case DropRoute(dest, mask) => (dest, mask)
  }

  lemma HeldSnoc(rt: seq<Route>, x: Route)
    ensures Held(rt + [x]) == Held(rt) + {KeyOf(x)}
  {
    assert (rt + [x])[|rt|] == x;
    forall k | k in Held(rt) ensures k in Held(rt + [x]) {
      var i :| 0 <= i < |rt| && KeyOf(rt[i]) == k;
      assert KeyOf((rt + [x])[i]) == k;
    }
  }

  lemma FindHeld(rt: seq<Route>, k: Key)
    ensures FindRoute(rt, k.0, k.1) < |rt| <==> k in Held(rt)
  {
    var i := FindRoute(rt, k.0, k.1);
    if i < |rt| {
      assert KeyOf(rt[i]) == k;
    }
  }

  lemma FindSnoc(rt: seq<Route>, x: Route, k: Key)
    ensures FindRoute(rt + [x], k.0, k.1) ==
              if k in Held(rt) then FindRoute(rt, k.0, k.1) else |rt| + if KeyOf(x) == k then 0 else 1
  {
    FindHeld(rt, k);
    var s, i := rt + [x], FindRoute(rt, k.0, k.1);
    assert s[|rt|] == x;
    FirstRoute(s, k.0, k.1, if i < |rt| then i else |rt| + if KeyOf(x) == k then 0 else 1);
  }

  /** An overwrite or a deletion with one more entry: the entry is concerned only if no
      earlier one is. */
  lemma ApplySnoc(rt: seq<Route>, x: Route, c: Change)
    requires c.SetRoute? || c.DropRoute?
    ensures ApplyRt(rt + [x], c) ==
              if Subject(c) in Held(rt) then ApplyRt(rt, c) + [x] else rt + ApplyOne(x, c)
  {
    var k, s := Subject(c), rt + [x];
    var i := FindRoute(rt, k.0, k.1);
    FindHeld(rt, k);
    FindSnoc(rt, x, k);
    if c.DropRoute? {
      if i < |rt| {
        assert s[..i] == rt[..i] && s[i + 1..] == rt[i + 1..] + [x];
      } else {
        assert s[..|rt|] == rt && s[|rt| + 1..] == [];
      }
    }
  }

  /** What becomes of a single entry. */
  function ApplyOne(x: Route, c: Change): seq<Route>
    requires c.SetRoute? || c.DropRoute?
  {
    if KeyOf(x) != Subject(c) then [x]
    else if c.DropRoute? then []
    else [x.(gw := c.route.gw, oif := c.route.oif)]
  }

  lemma {:induction false} OutsideHeld(rt: seq<Route>, ks: set<Key>)
    ensures Held(Outside(rt, ks)) == Held(rt) - ks
  {
    if rt != [] {
      var init, last := rt[..|rt| - 1], rt[|rt| - 1];
      assert rt == init + [last];
      OutsideHeld(init, ks);
      HeldSnoc(init, last);
      HeldSnoc(Outside(init, ks), last);
    }
  }

  lemma OutsideSnoc(rt: seq<Route>, x: Route, ks: set<Key>)
    ensures Outside(rt + [x], ks) == Outside(rt, ks) + if KeyOf(x) in ks then [] else [x]
  {
    assert (rt + [x])[..|rt|] == rt;
  }

  lemma OutsideOne(rt: seq<Route>, x: Route, c: Change, ks: set<Key>)
    requires c.SetRoute? || c.DropRoute?
    ensures Outside(rt + ApplyOne(x, c), ks) == Outside(rt, ks) + if KeyOf(x) in ks then [] else ApplyOne(x, c)
  {
    if ApplyOne(x, c) == [] {
      assert rt + [] == rt;
    } else {
      OutsideSnoc(rt, ApplyOne(x, c)[0], ks);
    }
  }

  /** A change about one of the keys cannot be seen outside of them. */
  lemma {:induction false} OutsideBlind(rt: seq<Route>, c: Change, ks: set<Key>)
    requires AboutRoutes(c) && Subject(c) in ks
    ensures Outside(ApplyRt(rt, c), ks) == Outside(rt, ks)
  {
    if c.AddRoute? {
      OutsideSnoc(rt, c.route, ks);
    } else if rt != [] {
      var init, last := rt[..|rt| - 1], rt[|rt| - 1];
      assert rt == init + [last];
      OutsideBlind(init, c, ks);
      ApplySnoc(init, last, c);
      OutsideSnoc(init, last, ks);
      OutsideSnoc(ApplyRt(init, c), last, ks);
      OutsideOne(init, last, c, ks);
    }
  }

  /** Any other change happens outside of them as it does in the whole table. */
  lemma {:induction false} OutsideSees(rt: seq<Route>, c: Change, ks: set<Key>)
    requires AboutRoutes(c) && Subject(c) !in ks
    ensures Outside(ApplyRt(rt, c), ks) == ApplyRt(Outside(rt, ks), c)
  {
    OutsideHeld(rt, ks);
    FindHeld(rt, Subject(c));
    FindHeld(Outside(rt, ks), Subject(c));
    if c.AddRoute? {
      OutsideSnoc(rt, c.route, ks);
    } else if rt != [] {
      var init, last := rt[..|rt| - 1], rt[|rt| - 1];
      assert rt == init + [last];
      OutsideSees(init, c, ks);
      OutsideSeesSnoc(init, last, c, ks);
    }
  }

  lemma OutsideSeesSnoc(rt: seq<Route>, x: Route, c: Change, ks: set<Key>)
    requires (c.SetRoute? || c.DropRoute?) && Subject(c) !in ks
    requires Outside(ApplyRt(rt, c), ks) == ApplyRt(Outside(rt, ks), c)
    ensures Outside(ApplyRt(rt + [x], c), ks) == ApplyRt(Outside(rt + [x], ks), c)
  {
    OutsideHeld(rt, ks);
    ApplySnoc(rt, x, c);
    ApplySnoc(Outside(rt, ks), x, c);
    OutsideSnoc(rt, x, ks);
    OutsideSnoc(ApplyRt(rt, c), x, ks);
    OutsideOne(rt, x, c, ks);
    if KeyOf(x) in ks && Subject(c) !in Held(rt) {
      FindHeld(Outside(rt, ks), Subject(c));
    }
  }

  /** A key that no entry has makes no difference. */
  lemma {:induction false} OutsideLess(rt: seq<Route>, k: Key, ks: set<Key>)
    requires k !in Held(rt)
    ensures Outside(rt, ks - {k}) == Outside(rt, ks)
  {
    if rt != [] {
      var init, last := rt[..|rt| - 1], rt[|rt| - 1];
      assert rt == init + [last];
      HeldSnoc(init, last);
      OutsideLess(init, k, ks);
    }
  }

  lemma {:induction false} OutsideNothing(rt: seq<Route>)
    ensures Outside(rt, {}) == rt
  {
    if rt != [] {
      OutsideNothing(rt[..|rt| - 1]);
      assert rt == rt[..|rt| - 1] + [rt[|rt| - 1]];
    }
  }

  lemma {:induction false} FoldUnique(rt: seq<Route>, cs: seq<Change>)
    requires UniqueRoutes(rt)
    ensures UniqueRoutes(Fold(rt, cs))
  {
    if cs != [] {
      var n := |cs| - 1;
      FoldUnique(rt, cs[..n]);
      ApplyUnique(Tables(Fold(rt, cs[..n]), []), cs[n]);
    }
  }

  lemma HeldLookup(rt: seq<Route>, k: Key)
    ensures k in Held(rt) <==> Lookup(rt, k.0, k.1).Via?
  {
    FindHeld(rt, k);
  }

  lemma LeftSnoc(rt: seq<Route>, cs: seq<Change>, c: Change)
    ensures Left(rt, cs + [c]) == Left(rt, cs) - if c.DropRoute? then {(c.dest, c.mask)} else {}
  {
  }

  /** What starts with the table and what starts with nothing agree at all times on every
      key that was not held at first or has been dropped since, order included. */
  lemma {:induction false} AgreeOutside(rt: seq<Route>, cs: seq<Change>)
    requires UniqueRoutes(rt)
    ensures Outside(Fold(rt, cs), Left(rt, cs)) == Outside(Fold([], cs), Left(rt, cs))
  {
    if cs == [] {
      var s := Outside(rt, Left(rt, cs));
      OutsideHeld(rt, Left(rt, cs));
      assert s != [] ==> KeyOf(s[0]) in Held(s);
    } else {
      var init, c := cs[..|cs| - 1], cs[|cs| - 1];
      assert cs == init + [c];
      AgreeOutside(rt, init);
      AgreeStep(rt, init, c);
    }
  }

  lemma AgreeStep(rt: seq<Route>, cs: seq<Change>, c: Change)
    requires UniqueRoutes(rt)
    requires Outside(Fold(rt, cs), Left(rt, cs)) == Outside(Fold([], cs), Left(rt, cs))
    ensures var ks := Left(rt, cs + [c]);
            Outside(ApplyRt(Fold(rt, cs), c), ks) == Outside(ApplyRt(Fold([], cs), c), ks)
  {
    LeftSnoc(rt, cs, c);
    FoldUnique(rt, cs);
    FoldUnique([], cs);
    AgreeOne(Fold(rt, cs), Fold([], cs), Left(rt, cs), c);
  }

  lemma AgreeOne(a: seq<Route>, b: seq<Route>, ks: set<Key>, c: Change)
    requires UniqueRoutes(a) && UniqueRoutes(b) && Outside(a, ks) == Outside(b, ks)
    ensures var ks' := ks - if c.DropRoute? then {(c.dest, c.mask)} else {};
            Outside(ApplyRt(a, c), ks') == Outside(ApplyRt(b, c), ks')
  {
    assert ks - {} == ks;
    if AboutRoutes(c) {
      if Subject(c) in ks {
        OutsideBlind(a, c, ks);
        OutsideBlind(b, c, ks);
      } else {
        OutsideSees(a, c, ks);
        OutsideSees(b, c, ks);
      }
      if c.DropRoute? {
        Dropped(a, c, ks);
        Dropped(b, c, ks);
      }
    }
  }

  lemma Dropped(rt: seq<Route>, c: Change, ks: set<Key>)
    requires UniqueRoutes(rt) && c.DropRoute?
    ensures Outside(ApplyRt(rt, c), ks - {(c.dest, c.mask)}) == Outside(ApplyRt(rt, c), ks)
  {
    LookupAfter(rt, c, c.dest, c.mask);
    HeldLookup(ApplyRt(rt, c), (c.dest, c.mask));
    OutsideLess(ApplyRt(rt, c), (c.dest, c.mask), ks);
  }

  /** A key that is held and not dropped stays; one that is never added does not come. */
  lemma {:induction false} Stays(rt: seq<Route>, cs: seq<Change>, k: Key)
    requires UniqueRoutes(rt) && DropRoute(k.0, k.1) !in cs
    ensures k in Held(rt) ==> k in Held(Fold(rt, cs))
    ensures k !in Held(rt) && (forall c | c in cs && c.AddRoute? :: !About(c, k)) ==> k !in Held(Fold(rt, cs))
  {
    if cs != [] {
      var init, c := cs[..|cs| - 1], cs[|cs| - 1];
      assert cs == init + [c];
      Stays(rt, init, k);
      FoldUnique(rt, init);
      LookupAfter(Fold(rt, init), c, k.0, k.1);
      HeldLookup(Fold(rt, init), k);
      HeldLookup(Fold(rt, cs), k);
    }
  }

  /** No key held at first is added again before it has been dropped. */
  ghost predicate NoneAddedTwice(rt: seq<Route>, cs: seq<Change>) {
    forall i | 0 <= i < |cs| && cs[i].AddRoute? :: KeyOf(cs[i].route) !in Left(rt, cs[..i])
  }

  /** The same changes to the table and to nothing give the same table if they drop every
      key held at first; and only then, unless a held key is added again. */
  lemma AgreeExact(rt: seq<Route>, cs: seq<Change>)
    requires UniqueRoutes(rt)
    ensures Left(rt, cs) == {} ==> Fold(rt, cs) == Fold([], cs)
    ensures NoneAddedTwice(rt, cs) && Fold(rt, cs) == Fold([], cs) ==> Left(rt, cs) == {}
  {
    AgreeOutside(rt, cs);
    OutsideNothing(Fold(rt, cs));
    OutsideNothing(Fold([], cs));
    if NoneAddedTwice(rt, cs) && Left(rt, cs) != {} {
      var k :| k in Left(rt, cs);
      assert Held([]) == {};
      forall c | c in cs && c.AddRoute? ensures !About(c, k) {
        var i :| 0 <= i < |cs| && cs[i] == c;
        assert KeyOf(c.route) !in Left(rt, cs[..i]);
      }
      Stays(rt, cs, k);
      Stays([], cs, k);
    }
  }

  // ----- MAC lists -----

  /** A MAC list is a routing table of routes that consist of a destination only. */
  function AsRoutes(ml: seq<CStr>): (rt: seq<Route>)
    ensures |rt| == |ml| && forall i | 0 <= i < |ml| :: rt[i] == MacRoute(ml[i])
  {
    seq(|ml|, i requires 0 <= i < |ml| => MacRoute(ml[i]))
  }

  function MacRoute(mac: CStr): Route {
    Route(mac, 0, "", "")
  }

  function OfRoutes(c: Change): Change {
    match c
    case AddMac(mac) => AddRoute(MacRoute(mac))
    case DropMac(mac) => DropRoute(mac, 0)
    case _ => Nothing
  }

  function AllOfRoutes(cs: seq<Change>): (ds: seq<Change>)
    ensures |ds| == |cs| && forall i | 0 <= i < |cs| :: ds[i] == OfRoutes(cs[i])
  {
    seq(|cs|, i requires 0 <= i < |cs| => OfRoutes(cs[i]))
  }

  function FoldMl(ml: seq<CStr>, cs: seq<Change>): seq<CStr> {
    if cs == [] then ml else ApplyMl(FoldMl(ml, cs[..|cs| - 1]), cs[|cs| - 1])
  }

  lemma FindAsRoutes(ml: seq<CStr>, mac: CStr)
    ensures FindRoute(AsRoutes(ml), mac, 0) == FindMac(ml, mac)
  {
    FirstRoute(AsRoutes(ml), mac, 0, FindMac(ml, mac));
  }

  lemma ApplyAsRoutes(ml: seq<CStr>, c: Change)
    ensures AsRoutes(ApplyMl(ml, c)) == ApplyRt(AsRoutes(ml), OfRoutes(c))
  {
    if c.AddMac? || c.DropMac? {
      FindAsRoutes(ml, c.mac);
    }
  }

  lemma {:induction false} FoldAsRoutes(ml: seq<CStr>, cs: seq<Change>)
    ensures AsRoutes(FoldMl(ml, cs)) == Fold(AsRoutes(ml), AllOfRoutes(cs))
  {
    if cs != [] {
      var init, c := cs[..|cs| - 1], cs[|cs| - 1];
      FoldAsRoutes(ml, init);
      ApplyAsRoutes(FoldMl(ml, init), c);
      assert AllOfRoutes(cs)[..|cs| - 1] == AllOfRoutes(init);
    }
  }

  /** The MAC addresses held at first that no change has dropped yet. */
  function LeftMacs(ml: seq<CStr>, cs: seq<Change>): set<CStr> {
    set mac | mac in ml && DropMac(mac) !in cs
  }

  ghost predicate NoMacAddedTwice(ml: seq<CStr>, cs: seq<Change>) {
    forall i | 0 <= i < |cs| && cs[i].AddMac? :: cs[i].mac !in LeftMacs(ml, cs[..i])
  }

  lemma LeftAsRoutes(ml: seq<CStr>, cs: seq<Change>)
    ensures Left(AsRoutes(ml), AllOfRoutes(cs)) == set mac | mac in LeftMacs(ml, cs) :: (mac, 0)
  {
    var ks := Left(AsRoutes(ml), AllOfRoutes(cs));
    forall mac ensures DropMac(mac) in cs <==> DropRoute(mac, 0) in AllOfRoutes(cs) {
      if DropMac(mac) in cs {
        var i :| 0 <= i < |cs| && cs[i] == DropMac(mac);
        assert AllOfRoutes(cs)[i] == DropRoute(mac, 0);
      }
    }
    forall mac | mac in LeftMacs(ml, cs) ensures (mac, 0) in ks {
      var i :| 0 <= i < |ml| && ml[i] == mac;
      assert KeyOf(AsRoutes(ml)[i]) == (mac, 0);
    }
  }

  lemma AgreeMacs(ml: seq<CStr>, cs: seq<Change>)
    requires UniqueMacs(ml)
    ensures LeftMacs(ml, cs) == {} ==> FoldMl(ml, cs) == FoldMl([], cs)
    ensures NoMacAddedTwice(ml, cs) && FoldMl(ml, cs) == FoldMl([], cs) ==> LeftMacs(ml, cs) == {}
  {
    FoldAsRoutes(ml, cs);
    FoldAsRoutes([], cs);
    LeftAsRoutes(ml, cs);
    if NoMacAddedTwice(ml, cs) {
      NoneAddedAsRoutes(ml, cs);
    }
    AgreeExact(AsRoutes(ml), AllOfRoutes(cs));
    assert AsRoutes([]) == [];
    AsRoutesInjective(FoldMl(ml, cs), FoldMl([], cs));
    if LeftMacs(ml, cs) != {} {
      var mac :| mac in LeftMacs(ml, cs);
      assert (mac, 0) in Left(AsRoutes(ml), AllOfRoutes(cs));
    }
  }

  lemma AsRoutesInjective(a: seq<CStr>, b: seq<CStr>)
    ensures AsRoutes(a) == AsRoutes(b) <==> a == b
  {
    if AsRoutes(a) == AsRoutes(b) {
      forall i | 0 <= i < |a| ensures a[i] == b[i] {
        assert AsRoutes(a)[i] == AsRoutes(b)[i];
      }
    }
  }

  lemma NoneAddedAsRoutes(ml: seq<CStr>, cs: seq<Change>)
    requires NoMacAddedTwice(ml, cs)
    ensures NoneAddedTwice(AsRoutes(ml), AllOfRoutes(cs))
  {
    var ds := AllOfRoutes(cs);
    forall i | 0 <= i < |ds| && ds[i].AddRoute? ensures KeyOf(ds[i].route) !in Left(AsRoutes(ml), ds[..i]) {
      assert ds[..i] == AllOfRoutes(cs[..i]);
      LeftAsRoutes(ml, cs[..i]);
      assert cs[i].mac !in LeftMacs(ml, cs[..i]);
    }
  }

  // ----- The flags -----

  function Effects(ms: seq<Msg>): (cs: seq<Change>)
    ensures |cs| == |ms| && forall i | 0 <= i < |ms| :: cs[i] == Effect(ms[i])
  {
    seq(|ms|, i requires 0 <= i < |ms| => Effect(ms[i]))
  }

  lemma {:induction false} ReplayIsFold(t: Tables, ms: seq<Msg>)
    ensures Replay(t, ms) == Tables(Fold(t.rt, Effects(ms)), FoldMl(t.ml, Effects(ms)))
  {
    if ms != [] {
      var init, last := ms[..|ms| - 1], ms[|ms| - 1];
      assert ms == init + [last];
      ReplayIsFold(t, init);
      ReplaySnoc(t, init, last);
      assert Effects(ms) == Effects(init) + [Effect(last)];
      FoldSnoc(t.rt, Effects(init), Effect(last));
      FoldMlSnoc(t.ml, Effects(init), Effect(last));
    }
  }

  lemma FoldSnoc(rt: seq<Route>, cs: seq<Change>, c: Change)
    ensures Fold(rt, cs + [c]) == ApplyRt(Fold(rt, cs), c)
  {
    assert (cs + [c])[..|cs|] == cs;
  }

  lemma FoldMlSnoc(ml: seq<CStr>, cs: seq<Change>, c: Change)
    ensures FoldMl(ml, cs + [c]) == ApplyMl(FoldMl(ml, cs), c)
  {
    assert (cs + [c])[..|cs|] == cs;
  }

  /** The messages up to and including the `i`-th. */
  function UpTo(w: seq<Sent>, i: nat): seq<Msg>
    requires i < |w|
  {
    Msgs(w[..i + 1])
  }

  ghost predicate HonestAt(t: Tables, w: seq<Sent>, i: nat)
    requires i < |w|
  {
    Honest(Replay(t, UpTo(w, i)), w[i])
  }

  lemma {:induction false} TruthfulAt(t: Tables, w: seq<Sent>)
    ensures Truthful(t, w) <==> forall i | 0 <= i < |w| :: HonestAt(t, w, i)
    decreases |w|
  {
    if w != [] {
      var init, last := w[..|w| - 1], w[|w| - 1];
      assert w == init + [last];
      TruthfulAt(t, init);
      TruthfulAppend(t, init, [last]);
      TruthfulOne(Replay(t, Msgs(init)), last);
      Appended(t, init, last);
      assert w[..|init| + 1] == w && w[|init|] == last;
      assert HonestAt(t, w, |init|) <==> Truthful(Replay(t, Msgs(init)), [last]);
      forall i | 0 <= i < |init| ensures HonestAt(t, w, i) <==> HonestAt(t, init, i) {
        assert w[..i + 1] == init[..i + 1];
      }
    }
  }

  /** When the flag comes, the old entries of the table it is about have all been dropped. */
  predicate DroppedAt(t: Tables, w: seq<Sent>, i: nat)
    requires i < |w|
  {
    var cs := Effects(UpTo(w, i));
    && (w[i].packet.synchronized == RT ==> Left(t.rt, cs) == {})
    && (w[i].packet.synchronized == ML ==> LeftMacs(t.ml, cs) == {})
  }

  /** No packet adds a key that its client holds already. */
  ghost predicate NoneRepeated(t: Tables, w: seq<Sent>) {
    NoneAddedTwice(t.rt, Effects(Msgs(w))) && NoMacAddedTwice(t.ml, Effects(Msgs(w)))
  }

  lemma NoneRepeatedAt(t: Tables, w: seq<Sent>, i: nat)
    requires i < |w| && NoneRepeated(t, w)
    ensures var cs := Effects(UpTo(w, i)); NoneAddedTwice(t.rt, cs) && NoMacAddedTwice(t.ml, cs)
  {
    var cs, ds := Effects(UpTo(w, i)), Effects(Msgs(w));
    forall j | 0 <= j < |cs| ensures cs[j] == ds[j] && cs[..j] == ds[..j] {
    }
  }

  /** Flags that are true for a client stay true when it is emptied, if before each flag
      all that the client held of that table has been dropped; and only then, unless a key
      is added again that the client holds. */
  lemma FlagsByKeys(t: Tables, w: seq<Sent>)
    requires Unique(t) && Truthful(t, w)
    ensures (forall i | 0 <= i < |w| :: DroppedAt(t, w, i)) ==> Truthful(EMPTY, w)
    ensures NoneRepeated(t, w) && Truthful(EMPTY, w) ==> forall i | 0 <= i < |w| :: DroppedAt(t, w, i)
  {
    TruthfulAt(t, w);
    TruthfulAt(EMPTY, w);
    forall i | 0 <= i < |w|
      ensures DroppedAt(t, w, i) ==> HonestAt(EMPTY, w, i)
      ensures NoneRepeated(t, w) && HonestAt(EMPTY, w, i) ==> DroppedAt(t, w, i)
    {
      var ms := UpTo(w, i);
      assert HonestAt(t, w, i);
      if NoneRepeated(t, w) {
        NoneRepeatedAt(t, w, i);
      }
      ReplayIsFold(t, ms);
      ReplayIsFold(EMPTY, ms);
      AgreeExact(t.rt, Effects(ms));
      AgreeMacs(t.ml, Effects(ms));
    }
  }
}
