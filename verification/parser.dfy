/** `create_sync_message`, writing into a message in place. */
module Parser {
  import opened CString
  import opened Tokens
  import opened Address
  import opened Message
  import opened Snapshot
  import opened Sync

  /** The words as the successive calls of `strtok` deliver them. */
  lemma SplitStep(line: string)
    ensures Strtok(line).End? ==> Split(line) == []
    ensures Strtok(line).Token? ==> Split(line) == [Strtok(line).text] + Split(Strtok(line).rest)
  {
  }

  lemma RestIsTerminated(line: CStr)
    ensures Strtok(line).Token? ==> NUL !in Strtok(line).text && NUL !in Strtok(line).rest
  {
    SkipBlanksChars(line);
  }

  method NextWord(line: CStr) returns (found: bool, word: CStr, rest: CStr)
    ensures found <==> Split(line) != []
    ensures found ==> Split(line) == [word] + Split(rest)
    ensures !found ==> Split(rest) == []
  {
    SplitStep(line);
    RestIsTerminated(line);
    match Strtok(line)
    case End => return false, "", "";
    case Token(w, r) => return true, w, r;
  }

  /** From the mask on; `rest` is what `strtok` has not looked at yet. */
  method ReadMask(rest: CStr, ghost ts: Words, m: SyncMsg) returns (r: Outcome)
    requires |ts| >= 2 && ts[2..] == Split(rest) && m.body.Length == BODY_LEN
    modifies m.body
    ensures (r, m.Value()) == ParseMask(ts, old(m.Value()))
  {
    var found, word, rest1 := NextWord(rest);
    if !found {
      return Undefined;
    }
    assert word == ts[2];
    var digits := DigitsOnly(word);
    if !digits {
      return Rejected;
    }
    if Value(word) > INT_MAX {
      return Undefined;
    }
    if Value(word) > MAX_MASK {
      return Rejected;
    }
    Memcpy(m.body, MASK_AT, MaskBytes(Value(word)));
    if m.opCode == CREATE || m.opCode == UPDATE {
      assert ts[3..] == Split(rest1);
      r := ReadHop(rest1, ts, m);
    } else {
      r := Accepted;
    }
  }

  method ReadHop(rest: CStr, ghost ts: Words, m: SyncMsg) returns (r: Outcome)
    requires |ts| >= 3 && ts[3..] == Split(rest) && m.body.Length == BODY_LEN
    modifies m.body
    ensures (r, m.Value()) == ParseHop(ts, old(m.Value()))
  {
    var found, word, rest1 := NextWord(rest);
    if !found || !IsIp(word) {
      return Rejected;
    }
    assert word == ts[3];
    IpShape(word);
    Memcpy(m.body, GW_AT, word);
    assert ts[4..] == Split(rest1);
    found, word, rest1 := NextWord(rest1);
    if !found {
      return Rejected;
    }
    assert word == ts[4];
    if |word| > OIF_LEN {
      return Undefined;
    }
    Memcpy(m.body, OIF_AT, word);
    return Accepted;
  }

  /** From the address on. */
  method ReadTarget(rest: CStr, ghost ts: Words, m: SyncMsg, silent: bool, stored: bool) returns (r: Outcome)
    requires |ts| >= 1 && ts[1..] == Split(rest) && m.body.Length == BODY_LEN
    modifies m, m.body
    ensures (r, m.Value()) == ParseTarget(ts, old(m.Value()), silent, stored)
  {
    var found, word, rest1 := NextWord(rest);
    if !found {
      return Rejected;
    }
    assert word == ts[1];
    if IsIp(word) {
      IpShape(word);
      m.lCode := L3;
      Memcpy(m.body, 0, word);
      assert ts[2..] == Split(rest1);
      r := ReadMask(rest1, ts, m);
      return;
    }
    var mac := IsValidMac(word);
    if !mac {
      return Rejected;
    }
    m.lCode := L2;
    Memcpy(m.body, 0, word);
    if !silent && m.opCode == CREATE && !stored {
      return Rejected;
    }
    return Accepted;
  }

  /** The message in memory becomes what `Parse` makes of it, on every line and from
      every earlier state of the message. Emptying the tables on a flush is left to the
      caller, as is the address that `stored` stands for. */
  method CreateSyncMessage(operation: CStr, m: SyncMsg, silent: bool, stored: bool) returns (r: Outcome)
    requires m.body.Length == BODY_LEN
    modifies m, m.body
    ensures (r, m.Value()) == Parse(WordsOf(operation), old(m.Value()), silent, stored)
  {
    ghost var ts := WordsOf(operation);
    var found, word, rest := NextWord(operation);
    if !found {
      return Rejected;
    }
    assert word == ts[0] && ts[1..] == Split(rest);
    match word[0]
    case 'C' =>
      m.opCode := CREATE;
      r := ReadTarget(rest, ts, m, silent, stored);
    case 'U' =>
      m.opCode := UPDATE;
      r := ReadTarget(rest, ts, m, silent, stored);
    case 'D' =>
      m.opCode := DELETE;
      r := ReadTarget(rest, ts, m, silent, stored);
    case 'S' =>
      m.opCode := NONE;
      return Accepted;
    case 'F' =>
      m.opCode := NONE;
      return Flushed;
    case _ =>
      return Rejected;
  }
}
