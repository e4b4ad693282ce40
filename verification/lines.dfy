/** Command lines, and what the parser makes of them. */
module Lines {
  import opened CString
  import opened Tokens
  import opened Address
  import opened Message
  import opened Snapshot
  import opened Protocol

  // ----- Where a line ends -----

  predicate EndsLine(c: char) {
    c == '\r' || c == '\n' || c == NUL
  }

  /** Text in which no line ends. */
  predicate OneLine(s: seq<char>) {
    forall c | c in s :: !EndsLine(c)
  }

  lemma {:induction false} CutAt(s: CStr, tail: CStr)
    requires OneLine(s) && (tail == "" || EndsLine(tail[0]))
    ensures CutLine(s + tail) == s
    decreases |s|
  {
    if s == "" {
      assert s + tail == tail;
    } else {
      assert s[0] in s && (s + tail)[1..] == s[1..] + tail;
      assert OneLine(s[1..]);
      CutAt(s[1..], tail);
    }
  }

  /** What is read is cut at the first line break or terminator. */
  lemma LineEnds(s: seq<char>, c: char, rest: seq<char>)
    requires OneLine(s) && EndsLine(c)
    ensures Line(s + [c] + rest) == s
  {
    var raw := s + [c] + rest;
    assert NUL !in s;
    if c == NUL {
      StrIs(raw, s);
      CutAt(s, "");
      assert s + "" == s;
    } else {
      var t := Str(raw);
      assert |t| > |s| by {
        assert forall i | 0 <= i <= |s| :: raw[i] != NUL;
      }
      assert t == s + t[|s|..] && t[|s|..][0] == c;
      CutAt(s, t[|s|..]);
    }
  }

  /** And what has neither is taken as it is. With this `Line` is fixed for every input. */
  lemma LineIsAll(s: seq<char>)
    requires OneLine(s)
    ensures Line(s) == s
  {
    assert NUL !in s;
    assert Str(s) == s by {
      assert forall i | 0 <= i < |s| :: s[i] != NUL;
    }
    CutAt(s, "");
    assert s + "" == s;
  }

  /** The line break that the operator types makes no difference, nor does what is behind it. */
  lemma Entered(s: seq<char>, rest: seq<char>, stored: bool)
    requires OneLine(s)
    ensures ParseLine(s + "\n" + rest, stored) == ParseLine(s, stored)
  {
    LineEnds(s, '\n', rest);
    LineIsAll(s);
  }

  /** The parser sees the words of the text before the line break. */
  lemma EnteredWords(s: CStr, stored: bool)
    requires OneLine(s)
    ensures Line(s + "\n") == s && ParseLine(s + "\n", stored) == Parse(WordsOf(s), BLANK, false, stored)
  {
    LineEnds(s, '\n', "");
    assert s + ['\n'] + "" == s + "\n";
  }

  // ----- Lines that add an entry -----

  /** The line is accepted and adds this route. */
  predicate Adds(line: seq<char>, r: Route) {
    var (o, m) := ParseLine(line, true);
    o == Accepted && Effect(m) == AddRoute(r) && Ready(m)
  }

  /** The same, with an interface name that fills its field. */
  predicate AddsLong(line: seq<char>, r: Route) {
    var (o, m) := ParseLine(line, true);
    o == Accepted && Effect(m) == AddRoute(r) && Unended(m)
  }

  predicate AddsAddress(line: seq<char>, mac: CStr) {
    var (o, m) := ParseLine(line, true);
    o == Accepted && Effect(m) == AddMac(mac)
  }

  /** The printed form of an entry, entered, is such a line. */
  lemma AddMacCommand(mac: CStr)
    requires IsMac(mac)
    ensures AddsAddress(PrintMac(mac) + "\n", mac)
  {
    PrintMacFits(mac);
    MacIsLine(mac);
    EnteredWords(PrintMac(mac), true);
    ParseMeaning(WordsOf(PrintMac(mac)), true, AddMac(mac));
  }

  lemma MacIsLine(mac: CStr)
    requires IsMac(mac)
    ensures OneLine(PrintMac(mac)) && OneLine("U " + mac)
  {
    assert OneLine(mac);
  }

  lemma AddRouteCommand(r: Route)
    requires TypedRoute(r) && OneLine(r.oif)
    ensures var line := PrintRoute(r) + "\n"; if |r.oif| < OIF_LEN then Adds(line, r) else AddsLong(line, r)
  {
    var line := PrintRoute(r);
    RouteIsLine(r);
    EnteredWords(line, true);
    PrintFits(r);
    RouteWordsDenote(r);
    ParseMeaning(WordsOf(line), true, AddRoute(r));
    ParseReady(WordsOf(line), true);
  }

  lemma RouteIsLine(r: Route)
    requires TypedRoute(r) && OneLine(r.oif)
    ensures OneLine(PrintRoute(r))
  {
    IpShape(r.dest);
    IpShape(r.gw);
    assert AllDigits(Decimal(r.mask));
  }

  lemma RouteWordsDenote(r: Route)
    requires TypedRoute(r)
    ensures AllDigits(Decimal(r.mask)) && Value(Decimal(r.mask)) == r.mask
    ensures var ts := RouteWords(r);
            && (forall t | t in ts :: IsWord(t) && NUL !in t)
            && Denotes(ts, true, AddRoute(r)) && (Fills(ts) <==> |r.oif| == OIF_LEN)
  {
    RouteWordsValid(r);
    ValueOfDecimal(r.mask);
    assert forall t | t in RouteWords(r) :: NUL !in t;
    WordsDenote(RouteWords(r), r);
  }

  lemma WordsDenote(ts: Words, r: Route)
    requires TypedRoute(r) && |ts| == 5 && ts[0] == "C" && ts[1] == r.dest && ts[3] == r.gw && ts[4] == r.oif
    requires AllDigits(ts[2]) && Value(ts[2]) == r.mask
    ensures Denotes(ts, true, AddRoute(r)) && (Fills(ts) <==> |r.oif| == OIF_LEN)
  {
  }

  lemma FlushCommand()
    ensures ParseLine("F\n", true) == (Flushed, BLANK.(op := NONE))
  {
    SplitWord("F", "");
    EnteredWords("F", true);
    assert "F" + "\n" == "F\n";
  }

  lemma ShowCommand()
    ensures ParseLine("S\n", true) == (Accepted, BLANK.(op := NONE))
  {
    SplitWord("S", "");
    EnteredWords("S", true);
    assert "S" + "\n" == "S\n";
  }

  /** A deletion without a mask. */
  function Unfinished(ip: CStr): CStr {
    "D " + ip
  }

  lemma UnfinishedLine(ip: CStr, stored: bool)
    requires IsIp(ip)
    ensures ParseLine(Unfinished(ip) + "\n", stored).0 == Undefined
  {
    UnfinishedWords(ip);
    BreakingLine(Unfinished(ip), stored);
  }

  lemma UnfinishedWords(ip: CStr)
    requires IsIp(ip)
    ensures OneLine(Unfinished(ip)) && Split(Unfinished(ip)) == ["D", ip]
  {
    IpShape(ip);
    TwoWords("D", ip);
    assert "D" + " " + ip == Unfinished(ip);
  }

  lemma BreakingLine(line: CStr, stored: bool)
    requires OneLine(line) && Breaks(WordsOf(line))
    ensures ParseLine(line + "\n", stored).0 == Undefined
  {
    EnteredWords(line, stored);
    BreaksExact(WordsOf(line), BLANK, false, stored);
  }

  lemma UpdateMacCommand(mac: CStr)
    requires IsMac(mac)
    ensures var (o, m) := ParseLine("U " + mac + "\n", true);
            o == Accepted && Effect(m) == Nothing && Ready(m) && m.l == L2
  {
    var line := "U " + mac;
    TwoWords("U", mac);
    assert "U" + " " + mac == line;
    MacIsLine(mac);
    EnteredWords(line, true);
    UpdateMacWords(WordsOf(line), mac);
  }

  lemma UpdateMacWords(ts: Words, mac: CStr)
    requires ts == ["U", mac] && IsMac(mac)
    ensures var (o, m) := Parse(ts, BLANK, false, true);
            o == Accepted && Effect(m) == Nothing && Ready(m) && m.l == L2
  {
    IpIsNotMac(mac);
    ParseByVerb(ts, BLANK, false, true);
    ParseReady(ts, true);
  }
}
