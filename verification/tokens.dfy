/** `strtok(line, " ")` and the words it yields. */
module Tokens {

  datatype Scan = End | Token(text: string, rest: string)

  /** A word: what `strtok` can return. */
  predicate IsWord(t: string) {
    t != "" && ' ' !in t
  }

  function SkipBlanks(s: string): (r: string)
    ensures |r| <= |s|
    ensures r == "" || r[0] != ' '
  {
    if s != "" && s[0] == ' ' then SkipBlanks(s[1..]) else s
  }

  /** The longest prefix without a blank. */
  function Word(s: string): (w: string)
    ensures w <= s && ' ' !in w
    ensures |w| < |s| ==> s[|w|] == ' '
  {
    if s == "" || s[0] == ' ' then "" else [s[0]] + Word(s[1..])
  }

  /** One call: the next word, and where the following call goes on. */
  function Strtok(s: string): (r: Scan)
    ensures r.Token? ==> IsWord(r.text) && |r.rest| < |s|
  {
    var t := SkipBlanks(s);
    if t == "" then End
    else
      var w := Word(t);
      Token(w, if |w| < |t| then t[|w| + 1..] else "")
  }

  /** All words, in the order in which successive calls return them. */
  function Split(s: string): (ts: seq<string>)
    ensures forall t | t in ts :: IsWord(t)
    decreases |s|
  {
    match Strtok(s)
    case End => []
    case Token(text, rest) => [text] + Split(rest)
  }

  /** Words are cut out of the line: they contain no other characters. */
  lemma {:induction false} SplitChars(s: string, t: string, c: char)
    requires t in Split(s) && c in t
    ensures c in s
    decreases |s|
  {
    SkipBlanksChars(s);
    match Strtok(s)
    case End =>
    case Token(w, rest) =>
      if t != w {
        assert t in Split(rest);
        SplitChars(rest, t, c);
      }
  }

  lemma SkipBlanksChars(s: string)
    ensures forall c | c in SkipBlanks(s) :: c in s
  {
  }

  function Concat(ts: seq<string>): string {
    if ts == [] then "" else ts[0] + Concat(ts[1..])
  }

  function WithoutBlanks(s: string): string {
    if s == "" then "" else (if s[0] == ' ' then "" else [s[0]]) + WithoutBlanks(s[1..])
  }

  function Join(ts: seq<string>): string {
    if ts == [] then "" else if |ts| == 1 then ts[0] else ts[0] + " " + Join(ts[1..])
  }

  lemma WithoutBlanksSkip(s: string)
    ensures WithoutBlanks(SkipBlanks(s)) == WithoutBlanks(s)
  {
  }

  lemma {:induction false} WithoutBlanksAppend(a: string, b: string)
    ensures WithoutBlanks(a + b) == WithoutBlanks(a) + WithoutBlanks(b)
  {
    if a == "" {
      assert a + b == b;
    } else {
      assert (a + b)[1..] == a[1..] + b;
      WithoutBlanksAppend(a[1..], b);
    }
  }

  lemma {:induction false} WithoutBlanksWord(w: string)
    requires ' ' !in w
    ensures WithoutBlanks(w) == w
  {
    if w != "" {
      WithoutBlanksWord(w[1..]);
    }
  }

  /** Nothing but blanks is lost, and nothing is reordered. */
  lemma {:induction false} SplitKeepsText(s: string)
    ensures Concat(Split(s)) == WithoutBlanks(s)
    decreases |s|
  {
    WithoutBlanksSkip(s);
    match Strtok(s)
    case End =>
    case Token(w, rest) =>
      var t := SkipBlanks(s);
      var tail := t[|w|..];
      SplitKeepsText(rest);
      WithoutBlanksWord(w);
      WithoutBlanksAppend(w, tail);
      assert t == w + tail;
      assert WithoutBlanks(tail) == WithoutBlanks(rest) by {
        if |w| < |t| {
          assert tail[1..] == rest;
        }
      }
      assert ([w] + Split(rest))[1..] == Split(rest);
  }

  /** The scan of a word that is followed by a blank, or by nothing. */
  lemma {:induction false} WordOf(w: string, tail: string)
    requires ' ' !in w && (tail == "" || tail[0] == ' ')
    ensures Word(w + tail) == w
  {
    if w == "" {
      assert w + tail == tail;
    } else {
      assert (w + tail)[1..] == w[1..] + tail;
      WordOf(w[1..], tail);
    }
  }

  // ----- What fixes the words of every line -----

  /** A blank in front makes no difference, so a run of blanks counts as one. */
  lemma SplitBlank(s: string)
    ensures Split(" " + s) == Split(s)
  {
    assert (" " + s)[1..] == s;
    assert SkipBlanks(" " + s) == SkipBlanks(s);
    SplitSkips(" " + s);
    SplitSkips(s);
  }

  lemma SplitSkips(s: string)
    ensures Split(s) == SplitFrom(SkipBlanks(s))
  {
  }

  function SplitFrom(t: string): seq<string>
    requires t == "" || t[0] != ' '
  {
    if t == "" then [] else [Word(t)] + Split(if |Word(t)| < |t| then t[|Word(t)| + 1..] else "")
  }

  /** A word is the longest run without a blank. */
  lemma SplitWord(w: string, rest: string)
    requires IsWord(w)
    ensures Split(w) == [w] && Split(w + " " + rest) == [w] + Split(rest)
  {
    WordOf(w, "");
    assert w + "" == w;
    var s := w + (" " + rest);
    WordOf(w, " " + rest);
    assert w + " " + rest == s && s[|w| + 1..] == rest;
    SplitSkips(s);
    SplitSkips(w);
  }

  lemma Regroup(a: string, b: string, c: string)
    ensures (a + " " + b) + " " + c == a + " " + (b + " " + c)
  {
  }

  /** A blank separates what is before it from what is behind it, whatever that is. */
  lemma {:induction false} SplitAppend(a: string, b: string)
    ensures Split(a + " " + b) == Split(a) + Split(b)
    decreases |a|
  {
    if a == "" {
      SplitBlank(b);
      assert a + " " + b == " " + b;
    } else if a[0] == ' ' {
      SplitAppend(a[1..], b);
      AppendBlank(a[1..], b);
      assert a == " " + a[1..];
    } else if |Word(a)| == |a| {
      SplitWord(a, b);
    } else {
      SplitAppend(a[|Word(a)| + 1..], b);
      AppendWord(Word(a), a[|Word(a)| + 1..], b);
      FirstBlank(a);
    }
  }

  lemma FirstBlank(a: string)
    requires |Word(a)| < |a|
    ensures a == Word(a) + " " + a[|Word(a)| + 1..]
  {
  }

  lemma AppendBlank(a: string, b: string)
    requires Split(a + " " + b) == Split(a) + Split(b)
    ensures Split(" " + a + " " + b) == Split(" " + a) + Split(b)
  {
    SplitBlank(a);
    SplitBlank(a + " " + b);
    BlankInFront(Split, a, b);
  }

  lemma BlankInFront(f: string -> seq<string>, a: string, b: string)
    requires f(" " + a) == f(a) && f(" " + (a + " " + b)) == f(a + " " + b) && f(a + " " + b) == f(a) + f(b)
    ensures f(" " + a + " " + b) == f(" " + a) + f(b)
  {
    assert " " + a + " " + b == " " + (a + " " + b);
  }

  lemma AppendWord(w: string, a: string, b: string)
    requires IsWord(w) && Split(a + " " + b) == Split(a) + Split(b)
    ensures Split((w + " " + a) + " " + b) == Split(w + " " + a) + Split(b)
  {
    SplitWord(w, a);
    SplitWord(w, a + " " + b);
    WordInFront(Split, w, a, b);
  }

  /** That is so for whatever a word in front is cut off by. */
  lemma WordInFront(f: string -> seq<string>, w: string, a: string, b: string)
    requires f(w + " " + a) == [w] + f(a) && f(w + " " + (a + " " + b)) == [w] + f(a + " " + b)
    requires f(a + " " + b) == f(a) + f(b)
    ensures f((w + " " + a) + " " + b) == f(w + " " + a) + f(b)
  {
    Regroup(w, a, b);
    assert [w] + (f(a) + f(b)) == [w] + f(a) + f(b);
  }

  lemma TwoWords(a: string, b: string)
    requires IsWord(a) && IsWord(b)
    ensures Split(a + " " + b) == [a, b]
  {
    SplitWord(a, b);
    SplitWord(b, "");
  }

  /** Nothing else splits lines like that: a function that does so agrees with `Split`. */
  lemma {:induction false} SplitOnly(f: string -> seq<string>, s: string)
    requires f("") == [] && (forall w | IsWord(w) :: f(w) == [w])
    requires forall a: string, b: string :: f(a + " " + b) == f(a) + f(b)
    ensures f(s) == Split(s)
    decreases |s|
  {
    if s != "" {
      var w := Word(s);
      if |w| == |s| {
        SplitWord(s, "");
      } else {
        var t := s[|w| + 1..];
        assert s == w + " " + t;
        SplitOnly(f, w);
        SplitOnly(f, t);
        SplitAppend(w, t);
      }
    }
  }

  /** Splitting a single-space join of words gives the words back. */
  lemma {:induction false} SplitJoin(ts: seq<string>)
    requires forall t | t in ts :: IsWord(t)
    ensures Split(Join(ts)) == ts
  {
    if |ts| == 0 {
      return;
    }
    assert IsWord(ts[0]);
    if |ts| == 1 {
      WordOf(ts[0], "");
      assert ts[0] + "" == ts[0];
    } else {
      var tail := " " + Join(ts[1..]);
      assert Join(ts) == ts[0] + tail;
      WordOf(ts[0], tail);
      SplitJoin(ts[1..]);
      assert Join(ts)[|ts[0]| + 1..] == Join(ts[1..]);
    }
  }
}
