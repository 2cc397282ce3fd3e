/** The PIT/CS as the forwarder keeps it (hicn-plugin/src/pcs.h and the graph nodes):
    the bucket-chained table of module HashTable, the data of its nodes, the counters,
    the LRU list and the packets in flight, changed in place.

    The ghost field `state` is the state of module Pcs.  Every method changes the real
    fields as the code does and is proved to take `state` along the function that
    models it there, so what module Runs proves of all runs holds of this object. */
module PitCs {
  import opened Lists
  import opened Table
  import opened Pcs
  import opened PcsInvariant
  import opened Graph
  import HashTable
  import Service
  import CsLru

  lemma EvictableAfter(s: State)
    requires Evictable(s) && |s.lru| > s.max
    ensures var n := s.lru[|s.lru| - 1]; var s' := Dequeue(s, n);
      && n in s.nodes && s.nodes[n].at in s'.entries
      && (s'.entries[s.nodes[n].at].locks == 0 ==> Deletable(s', s.nodes[n].at))
  {
  }

  /** What a graph node finds that takes over a packet with a ticket. */
  lemma Taken(s: State, b: nat)
    requires Safe(s) && b in s.packets
    requires s.packets[b].stage.AtHitPit? || s.packets[b].stage.AtHitCs? || s.packets[b].stage.AtDataFwd?
    ensures var s0, t := Take(s, b), s.packets[b].stage.ticket;
      && t.h in s0.entries && t.node in s0.nodes
      && Deletable(s0, t.h) && s0.entries[t.h].locks > 0 && s0.entries[t.h].node == t.node
      && s0.nodes[t.node].data.Cs? == s0.entries[t.h].isCs
      && (s.packets[b].stage.AtHitCs? ==> s0.entries[t.h].isCs)
      && (t.node in s0.lru <==> s0.entries[t.h].isCs && !s0.entries[t.h].deleted)
      && Inv(s0, Some(t.h)) && b !in s0.buffers
  {
    hide Ordered, Locked;
    TakeTicketKeeps(s, b);
    RemoveLockKeeps(Take(s, b), s.packets[b].stage.ticket.h);
    EntryFacts(Take(s, b), s.packets[b].stage.ticket.h);
    NotBuffered(s, b);
  }

  lemma TakenSame(s: State, b: nat)
    ensures Take(s, b).entries == s.entries && Take(s, b).nodes == s.nodes && Take(s, b).max == s.max
    ensures Take(s, b).lru == s.lru && Take(s, b).history == s.history && Take(s, b).nodeCount == s.nodeCount
  {
  }

  lemma TakenPackets(s: State, b: nat)
    ensures b !in Take(s, b).packets
  {
  }

  lemma AddFaceFacts(s: State, h: Handle, n: nat, face: nat)
    requires Deletable(s, h) && s.entries[h].node == n && s.nodes[n].data.Pit?
    ensures Deletable(Pcs.AddFace(s, n, face), h) && Pcs.AddFace(s, n, face).entries == s.entries
  {
  }

  lemma TouchFacts(s: State, h: Handle, n: nat)
    requires Deletable(s, h) && s.entries[h].node == n
    ensures Deletable(Pcs.Touch(s, n), h) && Pcs.Touch(s, n).entries == s.entries && Pcs.Touch(s, n).nodes == s.nodes
    ensures s.entries[h].isCs ==> s.nodes[n].data.Cs? && s.nodes[n].data.buf.Some?
  {
  }

  lemma SwapFacts(s: State, h: Handle, n: nat, buf: nat)
    requires Deletable(s, h) && s.entries[h].node == n && s.entries[h].isCs
    ensures s.nodes[n].data.Cs? && s.nodes[n].data.buf.Some?
    ensures Deletable(Pcs.SwapBuffer(s, n, buf), h) && Pcs.SwapBuffer(s, n, buf).entries == s.entries
  {
  }

  /** What caching needs and leaves. */
  lemma CacheFacts(s: State, h: Handle, buf: nat, rxFace: nat, expire: int)
    requires Inv(s, Some(h)) && !s.entries[h].isCs && !s.entries[h].deleted && |s.lru| <= s.max
    requires buf !in s.buffers && buf !in s.packets
    ensures Pcs.PitToCs.requires(s, h, rxFace) && s.entries[h].node !in s.lru
    ensures var s1 := Pcs.PitToCs(s, h, rxFace);
      && Pcs.StoreBuffer.requires(s1, h, buf, expire)
      && var s2 := Pcs.StoreBuffer(s1, h, buf, expire);
      && Deletable(s2, h) && s2.entries[h].locks > 0
  {
    hide Locked, Ordered, Pcs.PitToCs, Pcs.StoreBuffer;
    CacheKeeps(s, h, buf, rxFace, expire);
    EntryFacts(s, h);
    RemoveLockKeeps(Pcs.StoreBuffer(Pcs.PitToCs(s, h, rxFace), h, buf, expire), h);
  }

  /** A lookup has some answer. */
  ghost function SomeAnswer(s: State, hash: nat): (found: Option<Handle>)
    ensures Answers(s, hash, found)
  {
    if exists h :: h in s.entries && Matches(s.entries[h], hash, false)
    then var h :| h in s.entries && Matches(s.entries[h], hash, false); Some(h)
    else None
  }

  lemma BornThere(s: State, h: Handle)
    requires Safe(s) && h in s.entries
    ensures h in s.history.born
  {
    BornKnown(s, None, h);
  }

  lemma AnswersTaken(s: State, b: nat, hash: nat, found: Option<Handle>)
    requires Answers(Take(s, b), hash, found)
    ensures Answers(s, hash, found) && (found.Some? ==> found.value in s.entries)
  {
  }

  lemma NodesUsed(t: HashTable.Tab, sh: Shape, c: HashTable.Entries, data: map<nat, Node>)
    requires HashTable.Good(t, sh, c) && t.nodes.Keys == data.Keys + {0} && 0 !in data
    ensures t.nodesUsed == |data| + 1
  {
    assert |t.nodes| == |t.nodes.Keys| && |data| == |data.Keys|;
  }

  lemma InstalledPlaces(s: State, e: Entry, c: HashTable.Entries, nodes: set<nat>, r: HashTable.InsertResult)
    requires HashTable.Installed(s.entries, s.nodes.Keys + {0}, e, c, nodes, r)
    ensures Places(s, e.hash, r)
  {
  }

  /** The state after an insert, before the strategy node locks what was in the way. */
  function AfterInsert(s: State, n: nat, p: Packet, bucket: nat, dpo: nat, vft: nat, expire: int, r: HashTable.InsertResult): State {
    match r
    case Inserted(h) => NewPit(s, h, NewEntry(n, p.hash, dpo, vft), p.name, p.face, bucket, expire)
    case Exist(h) => if h in s.entries && !s.entries[h].isCs then Lock(s, h) else s
    case NoMem => s
  }

  lemma InstalledAfter(s: State, n: nat, p: Packet, bucket: nat, dpo: nat, vft: nat, expire: int,
                       c: HashTable.Entries, nodes: set<nat>, r: HashTable.InsertResult)
    requires HashTable.Installed(s.entries, s.nodes.Keys + {0}, NewEntry(n, p.hash, dpo, vft), c, nodes, r)
    ensures var s' := AfterInsert(s, n, p, bucket, dpo, vft, expire, r);
      && s'.entries == c && nodes == s'.nodes.Keys + {0}
      && s'.csCount == s.csCount && s'.lru == s.lru && s'.max == s.max && s'.packets == s.packets && s'.nodeCount == s.nodeCount
      && (!r.Inserted? ==> s'.nodes == s.nodes && s'.pitCount == s.pitCount && s'.history == s.history)
      && (r.Inserted? ==>
            && s'.nodes == s.nodes[n := Node(r.h, p.name, Pit([p.face], bucket, expire))] && s'.pitCount == s.pitCount + 1
            && s'.history == s.history.(clock := s.history.clock + 1, born := s.history.born[r.h := s.history.clock],
                                        extra := s.history.extra[r.h := 0]))
  {
  }

  lemma PlacesTaken(s: State, b: nat, hash: nat, r: HashTable.InsertResult)
    requires Places(Take(s, b), hash, r)
    ensures Places(s, hash, r) && (r.Exist? ==> r.h in s.entries)
  {
  }

  lemma LockedSame(s: State, h: Handle)
    requires h in s.entries
    ensures Lock(s, h).history.born == s.history.born && LockTwice(s, h).history.born == s.history.born
    ensures h in Lock(s, h).entries && Lock(s, h).entries[h] == s.entries[h].(locks := s.entries[h].locks + 1)
    ensures LockTwice(s, h) == PutEntry(Lock(s, h), h, s.entries[h].(locks := s.entries[h].locks + 2))
      .(history := s.history.(extra := s.history.extra[h := (if h in s.history.extra then s.history.extra[h] else 0) + 1]))
    ensures h in LockTwice(s, h).entries && LockTwice(s, h).entries[h] == s.entries[h].(locks := s.entries[h].locks + 2)
  {
    assert s.entries[h := s.entries[h].(locks := s.entries[h].locks + 1)][h := s.entries[h].(locks := s.entries[h].locks + 2)]
      == s.entries[h := s.entries[h].(locks := s.entries[h].locks + 2)];
  }

  /** An insert has some answer. */
  ghost function SomePlace(s: State, hash: nat): (r: HashTable.InsertResult)
    ensures Places(s, hash, r)
  {
    if exists h :: h in s.entries && Matches(s.entries[h], hash, false)
    then var h :| h in s.entries && Matches(s.entries[h], hash, false); HashTable.Exist(h)
    else HashTable.NoMem
  }

  /** The answer to an insert is what the scan of the table before it gives. */
  ghost predicate Answered(t: HashTable.Tab, sh: Shape, c: HashTable.Entries, hash: nat, r: HashTable.InsertResult) {
    HashTable.Good(t, sh, c) && HashTable.Follows(Scan(t.store, sh, t.Start(hash), hash), HashTable.NoBucket(t), r)
  }

  lemma IsAnswered(t: HashTable.Tab, sh: Shape, c: HashTable.Entries, hash: nat, r: HashTable.InsertResult)
    requires HashTable.Good(t, sh, c) && HashTable.Follows(Scan(t.store, sh, t.Start(hash), hash), HashTable.NoBucket(t), r)
    ensures Answered(t, sh, c, hash, r)
  {
  }

  class PitCs {
    var table: HashTable.Tab
    var data: map<nat, Node>
    var pitCount: int
    var csCount: int
    const lru: CsLru.CsLru
    var packets: map<nat, Packet>
    /** The history that module Pcs describes; nothing is decided on it. */
    var past: History
    const max: nat
    ghost var shape: Shape
    ghost var state: State

    ghost predicate Agrees()
      reads this, lru
    {
      && data == state.nodes && pitCount == state.pitCount && csCount == state.csCount
      && lru.Valid() && lru.list == state.lru && max == state.max && packets == state.packets && past == state.history
      && table.nodeCount == state.nodeCount && table.nodes.Keys == data.Keys + {0} && 0 !in data
    }

    ghost predicate Valid()
      reads this, lru
    {
      HashTable.Good(table, shape, state.entries) && Agrees()
    }

    /** `hicn_pit_create`. */
    constructor (rows: nat, overflowCount: nat, nodeCount: nat, limit: nat)
      requires rows > 0
      ensures Valid() && fresh(lru)
      ensures state == State(map[], map[], 0, 0, [], limit, nodeCount, map[], map[], map[], History(0, map[], map[], 0))
    {
      var t, sh := HashTable.NewTable(rows, overflowCount, nodeCount);
      table, shape, data := t, sh, map[];
      pitCount, csCount, packets, max := 0, 0, map[], limit;
      lru := new CsLru.CsLru();
      past := History(0, map[], map[], 0);
      state := State(map[], map[], 0, 0, [], limit, nodeCount, map[], map[], map[], History(0, map[], map[], 0));
    }

    // ------------------------------------------------------------------ entries

    method Read(h: Handle) returns (e: Entry)
      requires Valid() && h in state.entries
      ensures e == state.entries[h] && e.node != 0 && e.hash != 0 && !e.overflow
    {
      e := HashTable.ReadEntry(table, shape, state.entries, h);
    }

    /** Change an entry through its pointer. */
    method Write(h: Handle, e: Entry)
      requires Valid() && h in state.entries
      requires e.hash == state.entries[h].hash && e.node == state.entries[h].node && !e.overflow
      modifies this`table, this`state
      ensures Valid() && state == PutEntry(old(state), h, e)
    {
      hide CsLru.Represents, HashTable.Good;
      HashTable.WithEntryGood(table, shape, state.entries, h, e);
      table := HashTable.WithEntry(table, h, e);
      state := PutEntry(state, h, e);
    }

    /** `hicn_pcs_delete_internal`: the entry leaves the table and its node the pool. */
    method DeleteInternal(h: Handle)
      requires Valid() && Deletable(state, h)
      modifies this`table, this`shape, this`data, this`past, this`state
      ensures Valid() && state == Pcs.DeleteInternal(old(state), h)
    {
      hide CsLru.Represents, HashTable.Good;
      var e := Read(h);
      var t, sh := HashTable.Erase(table, shape, state.entries, h, e);
      table, shape := t, sh;
      data := data - {e.node};
      past := past.(born := past.born - {h}, extra := past.extra - {h});
      state := Pcs.DeleteInternal(state, h);
    }

    /** `hicn_pcs_remove_lock`. */
    method RemoveLock(h: Handle)
      requires Valid() && Deletable(state, h) && state.entries[h].locks > 0
      modifies this`table, this`shape, this`data, this`past, this`state
      ensures Valid() && state == Pcs.RemoveLock(old(state), h)
    {
      hide CsLru.Represents, HashTable.Good, Pcs.DeleteInternal, Without;
      var e := Read(h);
      var locks := Unlock(h);
      if locks == 0 && e.deleted {
        if !e.isCs {
          past := past.(leaked := past.leaked + 1);
          state := Leak(state);
        }
        DeleteInternal(h);
      }
    }

    method MarkDeleted(h: Handle)
      requires Valid() && h in state.entries
      modifies this`table, this`state
      ensures Valid() && state == Pcs.MarkDeleted(old(state), h)
    {
      hide CsLru.Represents, HashTable.Good;
      var e := Read(h);
      Write(h, e.(deleted := true));
    }

    method Unlock(h: Handle) returns (locks: nat)
      requires Valid() && h in state.entries && state.entries[h].locks > 0
      modifies this`table, this`state
      ensures Valid() && state == Pcs.Unlock(old(state), h) && locks == state.entries[h].locks
    {
      hide CsLru.Represents, HashTable.Good;
      var e := Read(h);
      locks := e.locks - 1;
      Write(h, e.(locks := locks));
    }

    /** `hicn_pcs_pit_delete`. */
    method PitDelete(h: Handle)
      requires Valid() && Deletable(state, h) && state.entries[h].locks > 0
      modifies this`table, this`shape, this`data, this`past, this`pitCount, this`state
      ensures Valid() && state == Pcs.PitDelete(old(state), h)
    {
      hide CsLru.Represents, HashTable.Good, Pcs.DeleteInternal, Pcs.MarkDeleted;
      var locks := Unlock(h);
      if locks == 0 {
        pitCount := pitCount - 1;
        state := state.(pitCount := state.pitCount - 1);
        DeleteInternal(h);
      } else {
        MarkDeleted(h);
      }
    }

    /** Take a node off the linked list and uncount it. */
    method TakeOff(n: nat)
      requires Valid() && n in state.lru
      modifies lru, this`csCount, this`state
      ensures Valid() && state == Dequeue(old(state), n)
    {
      hide CsLru.Represents, HashTable.Good, Without;
      lru.Dequeue(n);
      csCount := csCount - 1;
      state := Dequeue(state, n);
    }

    /** `hicn_pcs_cs_delete`. */
    method CsDelete(h: Handle)
      requires Valid() && Deletable(state, h) && state.entries[h].locks > 0
      requires !state.entries[h].deleted ==> state.entries[h].node in state.lru
      modifies this`table, this`shape, this`data, this`past, lru, this`csCount, this`state
      ensures Valid() && state == Pcs.CsDelete(old(state), h)
    {
      hide CsLru.Represents, HashTable.Good, Pcs.DeleteInternal, Pcs.MarkDeleted, Without;
      var e := Read(h);
      if !e.deleted {
        TakeOff(e.node);
      }
      var locks := Unlock(h);
      if locks == 0 {
        DeleteInternal(h);
      } else {
        MarkDeleted(h);
      }
    }

    /** `hicn_cs_delete_trimmed`. */
    method DeleteTrimmed(h: Handle)
      requires Valid() && h in state.entries && (state.entries[h].locks == 0 ==> Deletable(state, h))
      modifies this`table, this`shape, this`data, this`past, this`state
      ensures Valid() && state == Pcs.DeleteTrimmed(old(state), h)
    {
      hide CsLru.Represents, HashTable.Good, Pcs.DeleteInternal, Pcs.MarkDeleted;
      var e := Read(h);
      if e.locks == 0 {
        DeleteInternal(h);
      } else {
        MarkDeleted(h);
      }
    }

    /** The end of `hicn_pit_to_cs`: evict the tail of the list if it is too long. */
    method Evict()
      requires Valid() && Evictable(state)
      modifies this`table, this`shape, this`data, this`past, lru, this`csCount, this`state
      ensures Valid() && state == Pcs.Evict(old(state))
    {
      hide CsLru.Represents, HashTable.Good, Pcs.DeleteTrimmed, Without;
      CsLru.CountIs(lru.links, lru.head, lru.tail, lru.count, lru.list);
      if lru.count > max {
        var n := lru.DeleteGet();
        var h := data[n].at;
        EvictableAfter(state);
        TakeOff(n);
        DeleteTrimmed(h);
      }
    }

    /** The first half of `hicn_pit_to_cs`. */
    method Convert(h: Handle, rxFace: nat)
      requires Valid()
      requires h in state.entries && state.entries[h].node in state.nodes && state.nodes[state.entries[h].node].data.Pit?
      requires state.entries[h].node !in state.lru
      modifies this`table, this`data, this`pitCount, lru, this`csCount, this`state
      ensures Valid()
      ensures state == Pcs.Convert(old(state), h, None, rxFace, old(state).nodes[old(state).entries[h].node].data.expire)
    {
      hide CsLru.Represents, HashTable.Good;
      var e := Read(h);
      var n := e.node;
      var d := data[n].data;
      ghost var s := state;
      Write(h, e.(isCs := true));
      pitCount := pitCount - 1;
      data := data[n := data[n].(data := Cs(None, rxFace, d.expire))];
      lru.Insert(n);
      csCount := csCount + 1;
      state := Pcs.Convert(s, h, None, rxFace, d.expire);
    }

    /** `hicn_pit_to_cs`. */
    method PitToCs(h: Handle, rxFace: nat)
      requires Valid()
      requires h in state.entries && state.entries[h].node in state.nodes && state.nodes[state.entries[h].node].data.Pit?
      requires Evictable(Pcs.Convert(state, h, None, rxFace, state.nodes[state.entries[h].node].data.expire))
      requires state.entries[h].node !in state.lru
      modifies this`table, this`shape, this`data, this`past, this`pitCount, lru, this`csCount, this`state
      ensures Valid() && state == Pcs.PitToCs(old(state), h, rxFace)
    {
      hide CsLru.Represents, HashTable.Good, Pcs.Evict, Pcs.Convert, Evictable;
      Convert(h, rxFace);
      Evict();
    }

    /** `clone_data_to_cs`, after the conversion. */
    method StoreBuffer(h: Handle, buf: nat, expire: int)
      requires Valid()
      requires h in state.entries && state.entries[h].node in state.nodes && state.nodes[state.entries[h].node].data.Cs?
      modifies this`data, this`state
      ensures Valid() && state == Pcs.StoreBuffer(old(state), h, buf, expire)
    {
      hide CsLru.Represents, HashTable.Good;
      var e := Read(h);
      data := data[e.node := data[e.node].(data := data[e.node].data.(buf := Some(buf), expire := expire))];
      state := Pcs.StoreBuffer(state, h, buf, expire);
    }

    /** `hicn_pcs_delete`. */
    method Delete(h: Handle)
      requires Valid() && Deletable(state, h) && state.entries[h].locks > 0
      requires state.entries[h].isCs && !state.entries[h].deleted ==> state.entries[h].node in state.lru
      modifies this, lru
      ensures Valid() && state == Pcs.Delete(old(state), h)
    {
      hide CsLru.Represents, HashTable.Good, Pcs.DeleteInternal, Without;
      var e := Read(h);
      if e.isCs {
        CsDelete(h);
      } else {
        PitDelete(h);
      }
    }

    // -------------------------------------------------------------- graph nodes

    /** A graph node takes a packet over, and hands it on. */
    method TakePacket(b: nat) returns (p: Packet)
      requires Valid() && b in packets
      modifies this`packets, this`state
      ensures Valid() && state == Take(old(state), b) && p == old(packets[b])
    {
      hide CsLru.Represents, HashTable.Good;
      p := packets[b];
      packets := packets - {b};
      state := Take(state, b);
    }

    method PutPacket(b: nat, p: Packet)
      requires Valid()
      modifies this`packets, this`state
      ensures Valid() && state == Put(old(state), b, p)
    {
      hide CsLru.Represents, HashTable.Good;
      packets := packets[b := p];
      state := Put(state, b, p);
    }

    /** `hicn_face_db_add_face`; see module FaceDb. */
    method AddFace(n: nat, face: nat)
      requires Valid() && n in data && data[n].data.Pit?
      modifies this`data, this`past, this`state
      ensures Valid() && state == Pcs.AddFace(old(state), n, face)
    {
      hide CsLru.Represents, HashTable.Good;
      data := data[n := data[n].(data := data[n].data.(faces := data[n].data.faces + [face]))];
      state := Pcs.AddFace(state, n, face);
    }

    /** The interest-hitpit node. */
    method HitPit(b: nat, parsed: bool, now: int)
      requires Valid() && Safe(state) && Enabled(state, Step.HitPit(b, parsed, now))
      modifies this, lru
      ensures Valid() && state == OnHitPit(old(state), b, parsed, now)
    {
      hide CsLru.Represents, HashTable.Good, Inv, Deletable, Take, Put, Pcs.RemoveLock, Pcs.Delete, Pcs.AddFace;
      Taken(state, b);
      ghost var s := state;
      var p := TakePacket(b);
      var t := p.stage.ticket;
      TakenSame(s, b);
      if !parsed || data[t.node].name != p.name {
        RemoveLock(t.h);
        return;
      }
      if now > data[t.node].data.expire {
        Delete(t.h);
        PutPacket(b, p.(stage := AtStrategy));
        return;
      }
      var e := Read(t.h);
      if e.isCs {
        PutPacket(b, p.(stage := AtHitCs(t)));
        return;
      }
      if p.face !in data[t.node].data.faces {
        AddFaceFacts(state, t.h, t.node, p.face);
        AddFace(t.node, p.face);
      }
      RemoveLock(t.h);
    }

    /** Move a node to the head of the linked list; it must not be alone on it. */
    method Touch(n: nat)
      requires Valid() && n in state.lru && |state.lru| > 1
      modifies lru, this`state
      ensures Valid() && state == Pcs.Touch(old(state), n)
    {
      hide CsLru.Represents, HashTable.Good, Without;
      lru.UpdateHead(n);
      state := Pcs.Touch(state, n);
    }

    /** If it is, the links represent no list any more, whatever the state is said to
        be. */
    method TouchSole(n: nat)
      requires Valid() && state.lru == [n]
      modifies lru
      ensures forall list :: !CsLru.Represents(lru.links, lru.head, lru.tail, lru.count, list)
      ensures forall s: State :: !(lru.Valid() && lru.list == s.lru)
    {
      lru.UpdateHead(n);
      forall list
        ensures !CsLru.Represents(lru.links, lru.head, lru.tail, lru.count, list)
      {
        CsLru.SoleElementBreaks(lru.links, n, list);
      }
    }

    /** The entry's buffer is full of references and replaced by a copy. */
    method SwapBuffer(n: nat, buf: nat)
      requires Valid() && n in data && data[n].data.Cs? && data[n].data.buf.Some?
      modifies this`data, this`past, this`state
      ensures Valid() && state == Pcs.SwapBuffer(old(state), n, buf)
    {
      hide CsLru.Represents, HashTable.Good;
      data := data[n := data[n].(data := data[n].data.(buf := Some(buf)))];
      state := Pcs.SwapBuffer(state, n, buf);
    }

    /** The interest-hitcs node. */
    method HitCs(b: nat, parsed: bool, now: int, copy: Option<nat>)
      requires Valid() && Safe(state) && Enabled(state, Step.HitCs(b, parsed, now, copy))
      modifies this, lru
      ensures Valid() && state == OnHitCs(old(state), b, parsed, now, copy)
    {
      hide CsLru.Represents, HashTable.Good, Inv, Deletable, Take, Put, Pcs.RemoveLock, Pcs.Delete, Pcs.Touch, Pcs.SwapBuffer;
      Taken(state, b);
      ghost var s := state;
      var p := TakePacket(b);
      var t := p.stage.ticket;
      TakenSame(s, b);
      if !parsed || data[t.node].name != p.name {
        RemoveLock(t.h);
        return;
      }
      if now > data[t.node].data.expire {
        Delete(t.h);
        PutPacket(b, p.(stage := AtStrategy));
        return;
      }
      var e := Read(t.h);
      TouchFacts(state, t.h, t.node);
      if !e.deleted {
        Touch(t.node);
      }
      if copy.Some? {
        SwapFacts(state, t.h, t.node, copy.value);
        SwapBuffer(t.node, copy.value);
      }
      RemoveLock(t.h);
    }

    /** Cache the data in place of the pending interest, and release it. */
    method CacheData(h: Handle, buf: nat, rxFace: nat, expire: int)
      requires Valid() && Pcs.PitToCs.requires(state, h, rxFace) && state.entries[h].node !in state.lru
      requires Pcs.StoreBuffer.requires(Pcs.PitToCs(state, h, rxFace), h, buf, expire)
      requires Pcs.RemoveLock.requires(Pcs.StoreBuffer(Pcs.PitToCs(state, h, rxFace), h, buf, expire), h)
      modifies this, lru
      ensures Valid()
      ensures state == Pcs.RemoveLock(Pcs.StoreBuffer(Pcs.PitToCs(old(state), h, rxFace), h, buf, expire), h)
    {
      hide CsLru.Represents, HashTable.Good, Deletable, Evictable, Pcs.Convert, Pcs.RemoveLock, Pcs.PitToCs, Pcs.StoreBuffer;
      PitToCs(h, rxFace);
      StoreBuffer(h, buf, expire);
      RemoveLock(h);
    }

    /** The data-fwd node; `sent` are the faces that get a clone, see modules Buffers and
        FaceDb. */
    method DataFwd(b: nat, parsed: bool, now: int, cloned: bool, lifetime: nat) returns (sent: seq<nat>)
      requires Valid() && Safe(state) && Enabled(state, Step.DataFwd(b, parsed, now, cloned, lifetime))
      modifies this, lru
      ensures Valid() && state == OnDataFwd(old(state), b, parsed, now, cloned, lifetime)
      ensures sent == Service.Delivered(old(state), Step.DataFwd(b, parsed, now, cloned, lifetime))
    {
      hide CsLru.Represents, HashTable.Good, Inv, Deletable, Take, Put, Pcs.RemoveLock, Pcs.Delete, Pcs.PitDelete, Pcs.PitToCs, Pcs.StoreBuffer;
      Taken(state, b);
      TakenSame(state, b);
      TakenPackets(state, b);
      ghost var s := state;
      var p := TakePacket(b);
      var t := p.stage.ticket;
      var e := Read(t.h);
      sent := [];
      if !parsed || data[t.node].name != p.name || e.isCs {
        RemoveLock(t.h);
      } else if now > data[t.node].data.expire || e.deleted {
        Delete(t.h);
      } else if !cloned || lifetime == 0 {
        sent := if cloned then data[t.node].data.faces else [];
        PitDelete(t.h);
      } else {
        sent := data[t.node].data.faces;
        var expire := now + ClampLifetime(lifetime);
        CacheFacts(state, t.h, b, p.face, expire);
        CacheData(t.h, b, p.face, expire);
      }
    }

    /** Search the table for a hash and lock the entry, as a lookup does. */
    method Search(hash: nat, isData: bool) returns (found: Option<Handle>)
      requires Valid() && hash != 0
      modifies this`table, this`state
      ensures Valid() && Answers(old(state), hash, found)
      ensures state == if found.Some? && !(isData && old(state).entries[found.value].isCs) then Lock(old(state), found.value) else old(state)
    {
      hide CsLru.Represents, HashTable.Good, Matches;
      var t, r, c := HashTable.Lookup(table, shape, state.entries, hash, isData, false);
      table, found := t, r;
      state := state.(entries := c);
    }

    /** The interest-pcslookup node. */
    method InterestLookup(b: nat, parsed: bool) returns (ghost found: Option<Handle>)
      requires Valid() && Safe(state)
      requires b in packets && packets[b].stage.Arrived? && !packets[b].isData && packets[b].hash != 0
      modifies this, lru
      ensures Enabled(old(state), Step.InterestLookup(b, parsed, found))
      ensures Valid() && state == OnInterestLookup(old(state), b, parsed, found)
    {
      hide CsLru.Represents, HashTable.Good, Inv, Answers;
      ghost var s := state;
      var p := TakePacket(b);
      if !parsed {
        found := SomeAnswer(s, p.hash);
        return;
      }
      var r := Search(p.hash, false);
      found := r;
      AnswersTaken(s, b, p.hash, r);
      if r.None? {
        PutPacket(b, p.(stage := AtStrategy));
      } else {
        BornThere(s, r.value);
        var e := Read(r.value);
        var t := Ticket(r.value, e.node, past.born[r.value]);
        PutPacket(b, p.(stage := if e.isCs then AtHitCs(t) else AtHitPit(t)));
      }
    }

    /** The data-pcslookup node. */
    method DataLookup(b: nat, parsed: bool) returns (ghost found: Option<Handle>)
      requires Valid() && Safe(state)
      requires b in packets && packets[b].stage.Arrived? && packets[b].isData && packets[b].hash != 0
      modifies this, lru
      ensures Enabled(old(state), Step.DataLookup(b, parsed, found))
      ensures Valid() && state == OnDataLookup(old(state), b, parsed, found)
    {
      hide CsLru.Represents, HashTable.Good, Inv, Answers;
      ghost var s := state;
      var p := TakePacket(b);
      if !parsed {
        found := SomeAnswer(s, p.hash);
        return;
      }
      var r := Search(p.hash, true);
      found := r;
      AnswersTaken(s, b, p.hash, r);
      if r.Some? {
        var e := Read(r.value);
        if !e.isCs {
          BornThere(s, r.value);
          PutPacket(b, p.(stage := AtDataFwd(Ticket(r.value, e.node, past.born[r.value]))));
        }
      }
    }

    /** `hicn_pcs_pit_insert` for a new node, which is given back if it fails. */
    method PitInsert(p: Packet, bucket: nat, dpo: nat, vft: nat, expire: int) returns (n: nat, r: HashTable.InsertResult)
      requires Valid() && p.hash != 0
      modifies this, lru
      ensures Valid()
      ensures n == 0 <==> |old(state).nodes| + 1 >= old(state).nodeCount
      ensures n == 0 ==> state == old(state)
      ensures n != 0 ==> n !in old(state).nodes && Places(old(state), p.hash, r)
      ensures n != 0 ==> Answered(old(table), old(shape), old(state).entries, p.hash, r)
      ensures n != 0 ==> state == AfterInsert(old(state), n, p, bucket, dpo, vft, expire, r)
    {
      hide CsLru.Represents, HashTable.Good, Places, Matches, AfterInsert, HashTable.Installed, Answered, HashTable.Follows;
      NodesUsed(table, shape, state.entries, data);
      var t;
      ghost var sh, c;
      t, n, r, sh, c := HashTable.Install(table, shape, state.entries, p.name, p.hash, dpo, vft);
      if n != 0 {
        IsAnswered(table, shape, state.entries, p.hash, r);
        InstalledPlaces(state, NewEntry(n, p.hash, dpo, vft), c, t.nodes.Keys, r);
        Adopt(t, sh, c, n, r, p, bucket, dpo, vft, expire);
      }
    }

    /** The table after an insert becomes the table of this object. */
    method Adopt(t: HashTable.Tab, ghost sh: Shape, ghost c: HashTable.Entries, n: nat, r: HashTable.InsertResult,
                 p: Packet, bucket: nat, dpo: nat, vft: nat, expire: int)
      requires Valid() && HashTable.Good(t, sh, c) && t.nodeCount == table.nodeCount && n != 0
      requires HashTable.Installed(state.entries, state.nodes.Keys + {0}, NewEntry(n, p.hash, dpo, vft), c, t.nodes.Keys, r)
      modifies this`table, this`shape, this`data, this`past, this`pitCount, this`state
      ensures Valid() && state == AfterInsert(old(state), n, p, bucket, dpo, vft, expire, r)
    {
      hide CsLru.Represents, HashTable.Good, AfterInsert, HashTable.Installed;
      InstalledAfter(state, n, p, bucket, dpo, vft, expire, c, t.nodes.Keys, r);
      table, shape := t, sh;
      if r.Inserted? {
        data := data[n := Node(r.h, p.name, Pit([p.face], bucket, expire))];
        pitCount := pitCount + 1;
        past := past.(clock := past.clock + 1, born := past.born[r.h := past.clock], extra := past.extra[r.h := 0]);
      }
      state := AfterInsert(state, n, p, bucket, dpo, vft, expire, r);
    }

    /** The strategy node's own lock on an entry that was in the way. */
    method LockAgain(h: Handle, ghost s: State)
      requires Valid() && h in s.entries && state == if s.entries[h].isCs then s else Lock(s, h)
      modifies this`table, this`past, this`state
      ensures Valid() && state == if s.entries[h].isCs then Lock(s, h) else LockTwice(s, h)
    {
      hide CsLru.Represents, HashTable.Good, LockTwice;
      LockedSame(s, h);
      var e := Read(h);
      Write(h, e.(locks := e.locks + 1));
      if !e.isCs {
        past := past.(extra := past.extra[h := (if h in past.extra then past.extra[h] else 0) + 1]);
        state := state.(history := past);
      }
    }

    /** The packet goes on with the entry that was in the way. */
    method HandOver(b: nat, p: Packet, h: Handle, ghost s: State)
      requires Valid() && h in s.entries && h in s.history.born && state == if s.entries[h].isCs then s else Lock(s, h)
      modifies this`table, this`past, this`packets, this`state
      ensures Valid()
      ensures var t := TicketFor(s, h);
        state == Put(if s.entries[h].isCs then Lock(s, h) else LockTwice(s, h), b,
                     p.(stage := if s.entries[h].isCs then AtHitCs(t) else AtHitPit(t)))
    {
      hide CsLru.Represents, HashTable.Good, Put, Lock, LockTwice;
      LockAgain(h, s);
      LockedSame(s, h);
      var e := Read(h);
      var t := Ticket(h, e.node, past.born[h]);
      PutPacket(b, p.(stage := if e.isCs then AtHitCs(t) else AtHitPit(t)));
    }

    /** The strategy node.  The face bucket comes from its pool; `spare` is some number
        that is not a node. */
    method Strategy(b: nat, routed: bool, bucket: nat, dpo: nat, vft: nat, expire: int, ghost spare: nat)
      returns (ghost node: nat, ghost result: HashTable.InsertResult)
      requires Valid() && Safe(state)
      requires b in packets && packets[b].stage.AtStrategy? && packets[b].hash != 0
      requires bucket !in state.faceBuckets && spare != 0 && spare !in state.nodes
      modifies this, lru
      ensures Enabled(old(state), Step.Strategy(b, routed, node, bucket, dpo, vft, expire, result))
      ensures Valid() && state == OnStrategy(old(state), b, routed, node, bucket, dpo, vft, expire, result)
      ensures routed && |old(state).nodes| + 1 < old(state).nodeCount ==>
        Answered(old(table), old(shape), old(state).entries, old(packets)[b].hash, result)
    {
      hide CsLru.Represents, HashTable.Good, Inv, Places, Matches, Take, Put, NewPit, Lock, LockTwice, Answered;
      ghost var s := state;
      var p := TakePacket(b);
      TakenSame(s, b);
      node, result := spare, SomePlace(s, p.hash);
      if !routed {
        return;
      }
      var n, r := PitInsert(p, bucket, dpo, vft, expire);
      if n == 0 {
        return;
      }
      node, result := n, r;
      PlacesTaken(s, b, p.hash, r);
      if r.Exist? {
        BornThere(s, r.h);
        HandOver(b, p, r.h, Take(s, b));
      }
    }
  }
}
