/** The tables in memory, with the functions of the repository that work on them in place. */
module Store {
  import opened CString
  import opened Message
  import opened Table
  import opened LinkedList
  import opened Sync

  /** A `dll_t` whose entries are bodies of messages for one of the two layers. The bytes
      of the entries are `rows`, and the memory it owns is `Repr`. */
  class EntryList {
    const l: LCode
    var list: List
    ghost var rows: seq<Body>
    ghost var Repr: set<object>

    ghost predicate Valid()
      reads this, Repr
      ensures Valid() ==> this in Repr
    {
      && this in Repr && list in Repr
      && (forall x | x in list.spine :: x in Repr)
      && (forall x | x in list.items :: x in Repr)
      && Holds(list) && Rows(list.items) == rows && AllReadable(l, rows)
    }

    /** init_dll */
    constructor (l: LCode)
      ensures Valid() && fresh(Repr) && rows == [] && this.l == l
    {
      var dummy := new char[0];
      var d := new Dll(dummy);
      this.l := l;
      list := d;
      rows := [];
      Repr := {this, d, d.head};
    }

    /** What a search returns: the node of the `k`-th entry, or the dummy behind the last. */
    ghost predicate Found(node: Node<array<char>>, k: nat)
      requires Valid()
      reads this, Repr
    {
      k <= |rows| && node == if k < |rows| then list.spine[k + 1] else list.head
    }

    method FindRoutingTableEntry(dest: CStr, mask: nat) returns (node: Node<array<char>>, ghost k: nat)
      requires Valid()
      ensures Found(node, k) && k == FindRoute(Routes(rows), dest, mask)
      ensures node == list.head <==> Lookup(Routes(rows), dest, mask).Absent?
      ensures node != list.head ==> RouteOf(rows[k]).dest == dest && RouteOf(rows[k]).mask == mask
    {
      ghost var rt := Routes(rows);
      node := list.head.next;
      k := 0;
      while node != list.head
        invariant Found(node, k)
        invariant forall j | 0 <= j < k :: !(rt[j].dest == dest && rt[j].mask == mask)
        decreases |rows| - k
      {
        assert node.data == list.items[k];
        var entry := RouteOf(node.data[..]);
        assert entry == rt[k];
        if entry.dest == dest && entry.mask == mask {
          break;
        }
        node := node.next;
        k := k + 1;
      }
      FirstRoute(rt, dest, mask, k);
    }

    method FindMacEntry(mac: CStr) returns (node: Node<array<char>>, ghost k: nat)
      requires Valid()
      ensures Found(node, k) && k == FindMac(Macs(rows), mac)
      ensures node == list.head <==> mac !in Macs(rows)
    {
      ghost var ml := Macs(rows);
      node := list.head.next;
      k := 0;
      while node != list.head
        invariant Found(node, k)
        invariant forall j | 0 <= j < k :: ml[j] != mac
        decreases |rows| - k
      {
        assert node.data == list.items[k];
        var entry := MacOf(node.data[..]);
        assert entry == ml[k];
        if entry == mac {
          break;
        }
        node := node.next;
        k := k + 1;
      }
      FirstMac(ml, mac, k);
    }

    /** Appending stores the pointer; no byte moves. */
    method Append(body: array<char>)
      requires Valid() && body !in Repr && body.Length == BODY_LEN && Readable(l, body[..])
      modifies Repr
      ensures Valid() && rows == old(rows) + [body[..]] && body[..] == old(body[..])
      ensures fresh(Repr - old(Repr) - {body})
    {
      list.Append(body);
      rows, Repr := rows + [body[..]], Repr + {body, list.tail};
    }

    method Delete(node: Node<array<char>>, ghost k: nat)
      requires Valid() && k < |rows| && Found(node, k)
      modifies Repr
      ensures Valid() && rows == Without(old(rows), k) && Repr == old(Repr)
    {
      ghost var items := list.items;
      DeleteEntry(list, node, k);
      WithoutIn(items, k);
      StillReadable(l, rows, k);
      rows := Without(rows, k);
    }

    /** update: overwriting one entry changes no other, for no two nodes share a buffer. */
    method Overwrite(node: Node<array<char>>, gw: CStr, oif: CStr, ghost k: nat)
      requires Valid() && k < |rows| && Found(node, k) && l == L3 && |gw| < IP_ADDR_LEN && |oif| < OIF_LEN
      modifies Repr
      ensures Valid() && rows == old(rows)[k := Overwritten(old(rows)[k], gw, oif)] && Repr == old(Repr)
    {
      assert node.data == list.items[k];
      OverwrittenReads(rows[k], gw, oif);
      Update(node.data, gw, oif);
      rows := rows[k := Overwritten(rows[k], gw, oif)];
    }

    /** The node behind the `k`-th entry: that of the next one, or the dummy. */
    method Next(node: Node<array<char>>, ghost k: nat) returns (next: Node<array<char>>)
      requires Valid() && k < |rows| && Found(node, k)
      ensures Found(next, k + 1)
    {
      next := node.next;
    }

    /** deinit_dll */
    method Deinit()
      requires Valid()
      modifies Repr
      ensures Valid() && rows == [] && Repr == old(Repr)
    {
      list.Deinit();
      rows := [];
    }

    /** deinit_dll, then init_dll */
    method Reset()
      requires Valid()
      modifies Repr
      ensures Valid() && rows == [] && fresh(Repr - {this})
    {
      Deinit();
      var dummy := new char[0];
      var d := new Dll(dummy);
      list := d;
      rows := [];
      Repr := {this, d, d.head};
    }

    /** A message for this list that is not part of it and can be searched for. */
    ghost predicate Processable(m: SyncMsg)
      reads this, m, m.body
    {
      m.lCode == l && m.body.Length == BODY_LEN && m.body !in Repr && m !in Repr && Addressed(m.Value())
    }

    /** `ok` fails where an interface name is read beyond its field. The list is left as it
        was then; no promise about it could be kept. */
    method ProcessRoute(m: SyncMsg) returns (ok: bool)
      requires Valid() && l == L3 && Processable(m)
      modifies Repr
      ensures ok <==> (ReadsName(Routes(old(rows)), old(m.Value())) ==> Terminated(OifField(old(m.body[..]))))
      ensures Valid() && rows == if ok then ProcessedRoutes(old(rows), old(m.Value())) else old(rows)
      ensures fresh(Repr - old(Repr) - {m.body})
    {
      var entry := RouteOf(m.body[..]);
      var node, k := FindRoutingTableEntry(entry.dest, entry.mask);
      ok := true;
      match m.opCode
      case CREATE =>
        if node == list.head {
          if |entry.oif| == OIF_LEN {
            return false;
          }
          Append(m.body);
        }
      case UPDATE =>
        if node != list.head {
          if |entry.oif| == OIF_LEN {
            return false;
          }
          Overwrite(node, entry.gw, entry.oif, k);
        }
      case DELETE =>
        if node != list.head {
          Delete(node, k);
        }
      case NONE =>
    }

    method ProcessMac(m: SyncMsg)
      requires Valid() && l == L2 && Processable(m)
      modifies Repr
      ensures Valid() && rows == ProcessedMacs(old(rows), old(m.Value()))
      ensures fresh(Repr - old(Repr) - {m.body})
    {
      var node, k := FindMacEntry(MacOf(m.body[..]));
      match m.opCode
      case CREATE =>
        if node == list.head {
          Append(m.body);
        }
      case DELETE =>
        if node != list.head {
          Delete(node, k);
        }
      case _ =>
    }

    /** The message reads no name that does not end. */
    ghost predicate Meant(m: SyncMsg)
      reads this, m, m.body
      requires m.body.Length == BODY_LEN
    {
      l == L3 && ReadsName(Routes(rows), m.Value()) ==> Terminated(OifField(m.body[..]))
    }

    /** process_sync_mesg: read as a table, the list follows `Apply`, as long as that has a
        meaning. The buffer of the message may become part of it; nothing else from outside
        does. */
    method ProcessSyncMesg(m: SyncMsg) returns (ok: bool)
      requires Valid() && Processable(m)
      modifies Repr
      ensures Valid() && fresh(Repr - old(Repr) - {m.body})
      ensures ok == old(Meant(m)) && (!ok ==> rows == old(rows))
      ensures ok && l == L3 ==> Routes(rows) == ApplyRt(Routes(old(rows)), Effect(old(m.Value())))
      ensures ok && l == L2 ==> Macs(rows) == ApplyMl(Macs(old(rows)), Effect(old(m.Value())))
    {
      if m.lCode == L3 {
        if Meant(m) {
          ProcessedRoutesApply(rows, m.Value());
        }
        ok := ProcessRoute(m);
      } else {
        ProcessedMacsApply(rows, m.Value());
        ProcessMac(m);
        ok := true;
      }
    }
  }

  /** A list whose memory was not written is still valid. */
  twostate lemma Kept(e: EntryList)
    requires old(e.Valid()) && unchanged(e)
    requires forall x | x in old(e.Repr) :: unchanged(x)
    ensures e.Valid()
  {
  }
}
