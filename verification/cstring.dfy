/** C strings in fixed-size buffers: what `strlen` and `strcmp` see of a
    buffer, and what a `memcpy` without a terminator leaves behind. */
module CString {

  const NUL: char := '\0'

  type CStr = s: string | NUL !in s

  /** The bytes before the first NUL: the string C reads out of a buffer. */
  function Str(buf: seq<char>): (s: seq<char>)
    ensures s <= buf && NUL !in s
    ensures |s| < |buf| ==> buf[|s|] == NUL
  {
    if buf == [] || buf[0] == NUL then [] else [buf[0]] + Str(buf[1..])
  }

  predicate Terminated(buf: seq<char>) {
    |Str(buf)| < |buf|
  }

  /** Every byte after the string is NUL, as in a buffer fresh from `calloc`. */
  predicate Clean(buf: seq<char>) {
    && Terminated(buf)
    && forall i | |Str(buf)| <= i < |buf| :: buf[i] == NUL
  }

  function Zeros(n: nat): (buf: seq<char>)
    ensures |buf| == n && forall i | 0 <= i < n :: buf[i] == NUL
  {
    seq(n, _ => NUL)
  }

  /** `memcpy(buf + off, s, strlen(s))`: no terminator is written. */
  function Put(buf: seq<char>, off: nat, s: seq<char>): (r: seq<char>)
    requires off + |s| <= |buf|
    ensures |r| == |buf|
  {
    buf[..off] + s + buf[off + |s|..]
  }

  /** What remains visible when `s` is copied over the string `t`: `s`, then the
      part of `t` that sticks out behind it. */
  function Overlay(s: seq<char>, t: seq<char>): seq<char> {
    if |t| <= |s| then s else s + t[|s|..]
  }

  lemma StrIs(buf: seq<char>, s: seq<char>)
    requires s <= buf && NUL !in s
    requires |s| < |buf| && buf[|s|] == NUL
    ensures Str(buf) == s
  {
    var r := Str(buf);
    assert forall i | 0 <= i < |r| :: r[i] == buf[i] != NUL;
    assert forall i | 0 <= i < |s| :: s[i] == buf[i] != NUL;
    assert |r| == |s|;
  }

  /** A buffer without a NUL is all string, and does not end. */
  lemma StrWhole(buf: seq<char>)
    requires NUL !in buf
    ensures Str(buf) == buf && !Terminated(buf)
  {
  }

  /** `buf` is the string `t`, followed by nothing but NUL. */
  predicate Padded(buf: seq<char>, t: seq<char>) {
    && |t| < |buf| && NUL !in t
    && (forall i | 0 <= i < |t| :: buf[i] == t[i])
    && (forall i | |t| <= i < |buf| :: buf[i] == NUL)
  }

  lemma CleanPadded(buf: seq<char>, t: seq<char>)
    ensures Padded(buf, t) <==> Clean(buf) && Str(buf) == t
  {
    if Padded(buf, t) {
      StrIs(buf, t);
    }
  }

  lemma PutPadded(buf: seq<char>, s: seq<char>, t: seq<char>)
    requires Padded(buf, t) && NUL !in s && |s| < |buf|
    ensures Padded(Put(buf, 0, s), Overlay(s, t))
  {
    assert Put(buf, 0, s) == s + buf[|s|..];
  }

  /** Copying `s` to the front of a clean buffer leaves a clean buffer that reads
      as `s` overlaid on what it read before. */
  lemma PutReads(buf: seq<char>, s: seq<char>)
    requires Clean(buf) && NUL !in s && |s| < |buf|
    ensures Clean(Put(buf, 0, s))
    ensures Str(Put(buf, 0, s)) == Overlay(s, Str(buf))
  {
    CleanPadded(buf, Str(buf));
    PutPadded(buf, s, Str(buf));
    CleanPadded(Put(buf, 0, s), Overlay(s, Str(buf)));
  }

  /** The overlay is invisible exactly when the new string is at least as long. */
  lemma OverlayExact(s: seq<char>, t: seq<char>)
    ensures Overlay(s, t) == s <==> |t| <= |s|
  {
    if |t| > |s| {
      assert |Overlay(s, t)| == |t|;
    }
  }
}
