/** Every operation on PIT/CS entries keeps the invariant of module Pcs. */
module PcsInvariant {
  import opened Lists
  import opened Table
  import opened Pcs

  // -------------------------------------------------------------- holders, LRU list

  lemma HoldersWith(packets: map<nat, Packet>, b: nat, p: Packet, h: Handle)
    requires b !in packets
    ensures |Holders(packets[b := p], h)| == |Holders(packets, h)| + if p.stage.Holds(h) then 1 else 0
  {
    var q := packets[b := p];
    if p.stage.Holds(h) {
      assert Holders(q, h) == Holders(packets, h) + {b};
    } else {
      assert Holders(q, h) == Holders(packets, h);
    }
  }

  lemma HoldersWithout(packets: map<nat, Packet>, b: nat, h: Handle)
    requires b in packets
    ensures |Holders(packets - {b}, h)| == |Holders(packets, h)| - if packets[b].stage.Holds(h) then 1 else 0
  {
    if packets[b].stage.Holds(h) {
      assert Holders(packets, h) == Holders(packets - {b}, h) + {b};
    } else {
      assert Holders(packets, h) == Holders(packets - {b}, h);
    }
  }

  lemma {:induction false} WithoutMembers(q: seq<nat>, n: nat)
    requires NoDuplicates(q)
    ensures forall m :: m in Without(q, n) <==> m in q && m != n
    ensures |Without(q, n)| == |q| - if n in q then 1 else 0
  {
    hide NoDuplicates;
    if q != [] {
      assert q == [q[0]] + q[1..];
      TailDistinct(q);
      WithoutMembers(q[1..], n);
    }
  }

  lemma {:induction false} WithoutDistinct(q: seq<nat>, n: nat)
    requires NoDuplicates(q)
    ensures NoDuplicates(Without(q, n))
  {
    hide NoDuplicates;
    if q != [] {
      TailDistinct(q);
      if q[0] != n {
        WithoutDistinct(q[1..], n);
        WithoutMembers(q[1..], n);
        ConsDistinct(q[0], Without(q[1..], n));
      }
    }
  }

  // ----------------------------------------------------------------- entry updates

  lemma PairedPut(s: State, h: Handle, e: Entry)
    requires Paired(s) && h in s.entries && e.node == s.entries[h].node && e.isCs == s.entries[h].isCs
    ensures Paired(PutEntry(s, h, e))
  {
  }

  lemma OwnedPut(s: State, h: Handle, e: Entry)
    requires Owned(s) && Faced(s)
    ensures Owned(PutEntry(s, h, e)) && Faced(PutEntry(s, h, e))
  {
  }

  lemma TicketedPut(s: State, h: Handle, e: Entry)
    requires Ticketed(s) && h in s.entries
    requires e.node == s.entries[h].node && e.hash == s.entries[h].hash && e.isCs == s.entries[h].isCs
    ensures Ticketed(PutEntry(s, h, e))
  {
  }

  lemma ListedPut(s: State, h: Handle, e: Entry)
    requires Paired(s) && Listed(s) && h in s.entries && e.node == s.entries[h].node && e.isCs == s.entries[h].isCs
    requires e.deleted == s.entries[h].deleted || (e.deleted && e.node !in s.lru)
    ensures Paired(PutEntry(s, h, e)) && Listed(PutEntry(s, h, e))
  {
    PairedPut(s, h, e);
  }

  /** Rewriting the locks of an entry, or marking one that is off the LRU list. */
  lemma PutKeeps(s: State, h: Handle, e: Entry)
    requires Ordered(s) && h in s.entries
    requires e == s.entries[h].(locks := e.locks, deleted := e.deleted)
    requires e.deleted == s.entries[h].deleted || (e.deleted && e.node !in s.lru)
    ensures Ordered(PutEntry(s, h, e))
  {
    hide Paired, Owned, Faced, Listed, Ticketed;
    PairedPut(s, h, e);
    OwnedPut(s, h, e);
    TicketedPut(s, h, e);
    ListedPut(s, h, e);
  }

  lemma LockedPut(s: State, cur: Option<Handle>, cur': Option<Handle>, h: Handle, e: Entry)
    requires Locked(s, cur) && h in s.entries
    requires cur' == cur || (cur.None? && cur' == Some(h)) || (cur == Some(h) && cur'.None?)
    requires e.locks == s.entries[h].locks - Cur(cur, h) + Cur(cur', h)
    ensures Locked(PutEntry(s, h, e), cur')
  {
  }

  /** Locking an entry found by a lookup. */
  lemma LockKeeps(s: State, h: Handle)
    requires Inv(s, None) && h in s.entries
    ensures Inv(PutEntry(s, h, s.entries[h].(locks := s.entries[h].locks + 1)), Some(h))
  {
    hide Ordered, Locked;
    var e := s.entries[h].(locks := s.entries[h].locks + 1);
    PutKeeps(s, h, e);
    LockedPut(s, None, Some(h), h, e);
  }

  // ----------------------------------------------------------------------- freeing

  lemma PairedDelete(s: State, h: Handle)
    requires Paired(s) && Deletable(s, h)
    ensures Paired(DeleteInternal(s, h))
  {
    var s', n := DeleteInternal(s, h), s.entries[h].node;
    assert forall g | g in s'.entries :: s.entries[g].node != n;
  }

  lemma OwnsFacesDelete(s: State, h: Handle)
    requires Paired(s) && OwnsFaces(s) && Faced(s) && Deletable(s, h)
    ensures OwnsFaces(DeleteInternal(s, h)) && Faced(DeleteInternal(s, h))
  {
    assert s.nodes[s.entries[h].node].at == h;
  }

  lemma OwnsBuffersDelete(s: State, h: Handle)
    requires Paired(s) && OwnsBuffers(s) && Deletable(s, h)
    ensures OwnsBuffers(DeleteInternal(s, h))
  {
    assert s.nodes[s.entries[h].node].at == h;
  }

  lemma OwnedDelete(s: State, h: Handle)
    requires Paired(s) && Owned(s) && Faced(s) && Deletable(s, h)
    ensures Owned(DeleteInternal(s, h)) && Faced(DeleteInternal(s, h))
  {
    hide OwnsFaces, OwnsBuffers, Faced;
    OwnsFacesDelete(s, h);
    OwnsBuffersDelete(s, h);
  }

  lemma ListedDelete(s: State, h: Handle)
    requires Paired(s) && Listed(s) && Deletable(s, h) && s.entries[h].node !in s.lru
    ensures Paired(DeleteInternal(s, h)) && Listed(DeleteInternal(s, h))
  {
    PairedDelete(s, h);
    var s' := DeleteInternal(s, h);
    forall n
      ensures n in s'.lru <==> n in s'.nodes && s'.nodes[n].data.Cs? && !s'.entries[s'.nodes[n].at].deleted
    {
      assert n in s.lru <==> n in s.nodes && s.nodes[n].data.Cs? && !s.entries[s.nodes[n].at].deleted;
    }
  }

  lemma TicketedDelete(s: State, h: Handle)
    requires Ticketed(s) && Deletable(s, h)
    requires forall b | b in s.packets :: !s.packets[b].stage.Holds(h)
    ensures Ticketed(DeleteInternal(s, h))
  {
  }

  lemma LockedDelete(s: State, cur: Option<Handle>, h: Handle)
    requires Locked(s, cur) && Deletable(s, h) && cur != Some(h)
    ensures Locked(DeleteInternal(s, h), cur)
  {
  }

  lemma Deletables(s: State, h: Handle)
    requires Paired(s) && Owned(s) && h in s.entries
    ensures Deletable(s, h)
  {
    assert s.nodes[s.entries[h].node].at == h;
  }

  /** An entry without locks is held by nobody. */
  lemma Unheld(s: State, cur: Option<Handle>, h: Handle)
    requires Locked(s, cur) && h in s.entries && s.entries[h].locks == 0
    ensures cur != Some(h) && forall b | b in s.packets :: !s.packets[b].stage.Holds(h)
  {
    assert Holders(s.packets, h) == {};
    forall b | b in s.packets
      ensures !s.packets[b].stage.Holds(h)
    {
      assert b !in Holders(s.packets, h);
    }
  }

  /** Freeing an entry nobody holds and that is off the LRU list. */
  lemma DeleteKeeps(s: State, cur: Option<Handle>, h: Handle)
    requires Ordered(s) && Locked(s, cur) && h in s.entries
    requires s.entries[h].locks == 0 && s.entries[h].node !in s.lru
    ensures Deletable(s, h)
    ensures Ordered(DeleteInternal(s, h)) && Locked(DeleteInternal(s, h), cur)
    ensures |DeleteInternal(s, h).faceBuckets| == |s.faceBuckets| - if s.entries[h].isCs then 0 else 1
  {
    hide Paired, OwnsFaces, OwnsBuffers, Faced, Listed, Ticketed, Locked;
    Unheld(s, cur, h);
    Deletables(s, h);
    BucketFreed(s, h);
    PairedDelete(s, h);
    OwnedDelete(s, h);
    ListedDelete(s, h);
    TicketedDelete(s, h);
    LockedDelete(s, cur, h);
  }

  lemma BucketFreed(s: State, h: Handle)
    requires Paired(s) && Owned(s) && Deletable(s, h)
    ensures |DeleteInternal(s, h).faceBuckets| == |s.faceBuckets| - if s.entries[h].isCs then 0 else 1
  {
    var s', d := DeleteInternal(s, h), s.nodes[s.entries[h].node].data;
    if !s.entries[h].isCs {
      assert s.nodes[s.entries[h].node].at == h;
      assert d.bucket in s.faceBuckets;
      assert s.faceBuckets.Keys == s'.faceBuckets.Keys + {d.bucket};
    }
  }

  /** Dropping the running node's lock. */
  lemma UnlockKeeps(s: State, h: Handle)
    requires Inv(s, Some(h))
    ensures h in s.entries && s.entries[h].locks > 0
    ensures Inv(Unlock(s, h), None)
  {
    hide Ordered, Locked;
    CurLocked(s, h);
    var e := s.entries[h].(locks := s.entries[h].locks - 1);
    PutKeeps(s, h, e);
    LockedPut(s, Some(h), None, h, e);
  }

  /** The entry the running node works on is locked. */
  lemma CurLocked(s: State, h: Handle)
    requires Locked(s, Some(h))
    ensures h in s.entries && s.entries[h].locks > 0
  {
  }

  /** What order says of one entry: it can be freed, and it is on the LRU list
      exactly when it is cached and not marked. */
  lemma EntryFacts(s: State, h: Handle)
    requires Ordered(s) && h in s.entries
    ensures Deletable(s, h)
    ensures s.entries[h].node in s.lru <==> s.entries[h].isCs && !s.entries[h].deleted
    ensures s.nodes[s.entries[h].node].at == h
    ensures s.nodes[s.entries[h].node].data.Cs? == s.entries[h].isCs
  {
    hide Ticketed;
    assert s.nodes[s.entries[h].node].at == h;
  }

  lemma RemoveLockKeeps(s: State, h: Handle)
    requires Inv(s, Some(h))
    ensures Deletable(s, h) && s.entries[h].locks > 0
    ensures Inv(RemoveLock(s, h), None)
  {
    hide Ordered, Locked;
    UnlockKeeps(s, h);
    EntryFacts(s, h);
    var s1 := Unlock(s, h);
    if s1.entries[h].locks == 0 && s1.entries[h].deleted {
      EntryFacts(s1, h);
      if s.entries[h].isCs {
        DeleteKeeps(s1, None, h);
      } else {
        LeakOnly(s1);
        DeleteKeeps(Leak(s1), None, h);
      }
    }
  }

  /** The leak counter is only in the count of pending interests. */
  lemma LeakOnly(s: State)
    requires Ordered(s) && Locked(s, None)
    ensures Ordered(Leak(s)) && Locked(Leak(s), None)
  {
  }

  /** So is the count itself. */
  lemma CountOnly(s: State, cur: Option<Handle>, pitCount: int)
    requires Ordered(s) && Locked(s, cur)
    ensures Ordered(s.(pitCount := pitCount)) && Locked(s.(pitCount := pitCount), cur)
  {
  }

  lemma PitDeleteKeeps(s: State, h: Handle)
    requires Inv(s, Some(h))
    ensures Deletable(s, h) && s.entries[h].locks > 0
    ensures !s.entries[h].isCs ==> Inv(PitDelete(s, h), None)
  {
    hide Ordered, Locked;
    UnlockKeeps(s, h);
    EntryFacts(s, h);
    var s1 := Unlock(s, h);
    EntryFacts(s1, h);
    if !s.entries[h].isCs {
      if s1.entries[h].locks == 0 {
        CountOnly(s1, None, s1.pitCount - 1);
        DeleteKeeps(s1.(pitCount := s1.pitCount - 1), None, h);
      } else {
        MarkKeeps(s1, None, h);
      }
    }
  }

  /** Marking an entry that is off the LRU list. */
  lemma MarkKeeps(s: State, cur: Option<Handle>, h: Handle)
    requires Inv(s, cur) && h in s.entries && s.entries[h].node !in s.lru
    ensures Inv(MarkDeleted(s, h), cur)
  {
    hide Ordered;
    var e := s.entries[h].(deleted := true);
    PutKeeps(s, h, e);
    LockedPut(s, cur, cur, h, e);
  }

  // ------------------------------------------------------------ leaving the LRU list

  /** Off the list and marked, in one go: what every removal from the cache comes
      down to. */
  function Retire(s: State, h: Handle): State
    requires h in s.entries
  {
    if s.entries[h].deleted then s else MarkDeleted(Dequeue(s, s.entries[h].node), h)
  }

  lemma RetireListed(s: State, h: Handle)
    requires Paired(s) && Listed(s) && h in s.entries && s.entries[h].isCs && !s.entries[h].deleted
    ensures Paired(Retire(s, h)) && Listed(Retire(s, h)) && s.entries[h].node !in Retire(s, h).lru
    ensures |Retire(s, h).lru| == |s.lru| - 1
  {
    var s', n := Retire(s, h), s.entries[h].node;
    assert s.nodes[n].at == h;
    WithoutMembers(s.lru, n);
    WithoutDistinct(s.lru, n);
    PairedPut(s, h, s.entries[h].(deleted := true));
    assert Paired(s');
    forall m
      ensures m in s'.lru <==> m in s'.nodes && s'.nodes[m].data.Cs? && !s'.entries[s'.nodes[m].at].deleted
    {
      assert m in s.lru <==> m in s.nodes && s.nodes[m].data.Cs? && !s.entries[s.nodes[m].at].deleted;
    }
  }

  lemma LruOnly(s: State, lru: seq<nat>, csCount: int)
    requires Owned(s) && Faced(s) && Ticketed(s)
    ensures var s' := s.(lru := lru, csCount := csCount); Owned(s') && Faced(s') && Ticketed(s')
  {
  }

  lemma LruOnlyLocked(s: State, cur: Option<Handle>, lru: seq<nat>, csCount: int)
    requires Locked(s, cur)
    ensures Locked(s.(lru := lru, csCount := csCount), cur)
  {
  }

  lemma RetireKeeps(s: State, cur: Option<Handle>, h: Handle)
    requires Inv(s, cur) && h in s.entries && s.entries[h].isCs
    ensures Inv(Retire(s, h), cur) && s.entries[h].node !in Retire(s, h).lru
    ensures |Retire(s, h).lru| <= |s.lru| && (!s.entries[h].deleted ==> |Retire(s, h).lru| == |s.lru| - 1)
  {
    hide Paired, Owned, Faced, Listed, Ticketed, Locked;
    EntryFacts(s, h);
    if !s.entries[h].deleted {
      var n := s.entries[h].node;
      var s1 := Dequeue(s, n);
      var e := s.entries[h].(deleted := true);
      RetireListed(s, h);
      LruOnly(s, s1.lru, s1.csCount);
      LruOnlyLocked(s, cur, s1.lru, s1.csCount);
      OwnedPut(s1, h, e);
      TicketedPut(s1, h, e);
      LockedPut(s1, cur, cur, h, e);
    }
  }

  /** Freeing forgets whatever was last written to the entry. */
  lemma DeleteForgets(s: State, h: Handle, e: Entry)
    requires Deletable(s, h) && e.node == s.entries[h].node && e.isCs == s.entries[h].isCs
    ensures DeleteInternal(PutEntry(s, h, e), h) == DeleteInternal(s, h)
  {
    assert s.entries[h := e] - {h} == s.entries - {h};
  }

  /** The order in which an entry is unlocked, dequeued and marked is immaterial. */
  lemma RetireCommutes(s: State, h: Handle)
    requires h in s.entries && s.entries[h].locks > 0
    ensures var s0 := if s.entries[h].deleted then s else Dequeue(s, s.entries[h].node);
      Retire(Unlock(s, h), h) == MarkDeleted(Unlock(s0, h), h)
  {
    var e1 := s.entries[h].(locks := s.entries[h].locks - 1);
    var e2 := e1.(deleted := true);
    assert s.entries[h := e1][h := e2] == s.entries[h := e2];
  }

  lemma CsDeleteRetires(s: State, h: Handle)
    requires Deletable(s, h) && s.entries[h].locks > 0
    ensures var s2 := Retire(Unlock(s, h), h);
      && Deletable(s2, h)
      && CsDelete(s, h) == if s2.entries[h].locks == 0 then DeleteInternal(s2, h) else s2
  {
    RetireCommutes(s, h);
    var s0 := if s.entries[h].deleted then s else Dequeue(s, s.entries[h].node);
    DeleteForgets(Unlock(s0, h), h, MarkDeleted(Unlock(s0, h), h).entries[h]);
  }

  lemma CsDeleteKeeps(s: State, h: Handle)
    requires Inv(s, Some(h))
    ensures Deletable(s, h) && s.entries[h].locks > 0
    ensures s.entries[h].isCs ==> Inv(CsDelete(s, h), None) && |CsDelete(s, h).lru| <= |s.lru|
  {
    hide Ordered, Locked, CsDelete;
    UnlockKeeps(s, h);
    EntryFacts(s, h);
    if s.entries[h].isCs {
      CsDeleteRetires(s, h);
      RetireKeeps(Unlock(s, h), None, h);
      var s2 := Retire(Unlock(s, h), h);
      if s2.entries[h].locks == 0 {
        DeleteKeeps(s2, None, h);
      }
    }
  }

  lemma DeleteEntryKeeps(s: State, h: Handle)
    requires Inv(s, Some(h))
    ensures Deletable(s, h) && s.entries[h].locks > 0
    ensures Inv(Delete(s, h), None) && |Delete(s, h).lru| <= |s.lru|
  {
    hide Ordered, Locked;
    CsDeleteKeeps(s, h);
    PitDeleteKeeps(s, h);
  }

  // -------------------------------------------------------------------- converting

  lemma ConvertPaired(s: State, h: Handle, buf: nat, rxFace: nat, expire: int)
    requires Paired(s) && h in s.entries && s.nodes[s.entries[h].node].data.Pit?
    ensures Paired(Convert(s, h, Some(buf), rxFace, expire))
  {
  }

  lemma ConvertOwnsFaces(s: State, h: Handle, buf: nat, rxFace: nat, expire: int)
    requires OwnsFaces(s) && Faced(s) && h in s.entries && s.entries[h].node in s.nodes
    requires s.nodes[s.entries[h].node].data.Pit?
    ensures var s' := Convert(s, h, Some(buf), rxFace, expire);
      OwnsFaces(s') && Faced(s') && |s'.faceBuckets| == |s.faceBuckets| - 1
  {
    var s', d := Convert(s, h, Some(buf), rxFace, expire), s.nodes[s.entries[h].node].data;
    assert s.faceBuckets.Keys == s'.faceBuckets.Keys + {d.bucket};
  }

  lemma ConvertOwnsBuffers(s: State, h: Handle, buf: nat, rxFace: nat, expire: int)
    requires OwnsBuffers(s) && h in s.entries && s.entries[h].node in s.nodes
    requires s.nodes[s.entries[h].node].data.Pit? && buf !in s.buffers && buf !in s.packets
    ensures OwnsBuffers(Convert(s, h, Some(buf), rxFace, expire))
  {
  }

  lemma ConvertListed(s: State, h: Handle, buf: nat, rxFace: nat, expire: int)
    requires Paired(s) && Listed(s) && h in s.entries
    requires s.nodes[s.entries[h].node].data.Pit? && !s.entries[h].deleted
    ensures var s' := Convert(s, h, Some(buf), rxFace, expire); Paired(s') && Listed(s')
  {
    ConvertPaired(s, h, buf, rxFace, expire);
    var s', n := Convert(s, h, Some(buf), rxFace, expire), s.entries[h].node;
    assert n !in s.lru;
    forall m
      ensures m in s'.lru <==> m in s'.nodes && s'.nodes[m].data.Cs? && !s'.entries[s'.nodes[m].at].deleted
    {
      assert m in s.lru <==> m in s.nodes && s.nodes[m].data.Cs? && !s.entries[s.nodes[m].at].deleted;
      assert m in s'.lru <==> m == n || m in s.lru;
    }
  }

  lemma ConvertTicketed(s: State, h: Handle, buf: nat, rxFace: nat, expire: int)
    requires Ticketed(s) && h in s.entries && s.entries[h].node in s.nodes
    requires s.nodes[s.entries[h].node].data.Pit?
    ensures Ticketed(Convert(s, h, Some(buf), rxFace, expire))
  {
  }

  lemma ConvertLocked(s: State, cur: Option<Handle>, h: Handle, buf: nat, rxFace: nat, expire: int)
    requires Locked(s, cur) && h in s.entries && s.entries[h].node in s.nodes
    requires s.nodes[s.entries[h].node].data.Pit?
    ensures Locked(Convert(s, h, Some(buf), rxFace, expire), cur)
  {
  }

  lemma ConvertKeeps(s: State, cur: Option<Handle>, h: Handle, buf: nat, rxFace: nat, expire: int)
    requires Inv(s, cur) && h in s.entries && !s.entries[h].isCs && !s.entries[h].deleted
    requires buf !in s.buffers && buf !in s.packets
    ensures Deletable(s, h)
    ensures Inv(Convert(s, h, Some(buf), rxFace, expire), cur)
  {
    hide Paired, OwnsFaces, OwnsBuffers, Faced, Listed, Ticketed, Locked;
    EntryFacts(s, h);
    ConvertPaired(s, h, buf, rxFace, expire);
    ConvertOwnsFaces(s, h, buf, rxFace, expire);
    ConvertOwnsBuffers(s, h, buf, rxFace, expire);
    ConvertListed(s, h, buf, rxFace, expire);
    ConvertTicketed(s, h, buf, rxFace, expire);
    ConvertLocked(s, cur, h, buf, rxFace, expire);
  }

  lemma EvictRetires(s: State, n: nat, h: Handle)
    requires |s.lru| > s.max && n == s.lru[|s.lru| - 1] && n in s.nodes && s.nodes[n].at == h
    requires Deletable(s, h) && s.entries[h].node == n && !s.entries[h].deleted
    ensures Evictable(s)
    ensures var s2 := Retire(s, h);
      && Deletable(s2, h)
      && Evict(s) == if s2.entries[h].locks == 0 then DeleteInternal(s2, h) else s2
  {
    DeleteForgets(Dequeue(s, n), h, s.entries[h].(deleted := true));
  }

  lemma EvictsNothing(s: State)
    requires |s.lru| <= s.max
    ensures Evictable(s) && Evict(s) == s
  {
  }

  /** Eviction frees the tail entry or leaves it marked to its holders. */
  lemma EvictKeeps(s: State, cur: Option<Handle>)
    requires Inv(s, cur) && |s.lru| <= s.max + 1
    ensures Evictable(s) && Inv(Evict(s), cur) && |Evict(s).lru| <= s.max && Evict(s).max == s.max
  {
    hide Ordered, Locked, Evict, Evictable;
    if |s.lru| > s.max {
      Tail(s);
      var n := s.lru[|s.lru| - 1];
      var h := s.nodes[n].at;
      EntryFacts(s, h);
      EvictRetires(s, n, h);
      RetireKeeps(s, cur, h);
      var s2 := Retire(s, h);
      if s2.entries[h].locks == 0 {
        DeleteKeeps(s2, cur, h);
      }
    } else {
      EvictsNothing(s);
    }
  }

  lemma Tail(s: State)
    requires Ordered(s) && s.lru != []
    ensures var n := s.lru[|s.lru| - 1];
      && n in s.nodes && s.nodes[n].at in s.entries && s.entries[s.nodes[n].at].node == n
      && s.entries[s.nodes[n].at].isCs && !s.entries[s.nodes[n].at].deleted
  {
    assert s.lru[|s.lru| - 1] in s.lru;
  }

  predicate Cached(s: State, h: Handle) {
    h in s.entries && s.entries[h].node in s.nodes && s.nodes[s.entries[h].node].data.Cs?
  }

  lemma StoreThenMark(s: State, h: Handle, buf: nat, expire: int, v: Handle)
    requires Cached(s, h) && v in s.entries
    ensures Cached(MarkDeleted(s, v), h)
    ensures StoreBuffer(MarkDeleted(s, v), h, buf, expire) == MarkDeleted(StoreBuffer(s, h, buf, expire), v)
  {
  }

  lemma StoreThenDelete(s: State, h: Handle, buf: nat, expire: int, v: Handle)
    requires Cached(s, h) && Deletable(s, v) && v != h && s.entries[v].node != s.entries[h].node
    requires s.entries[v].isCs ==> s.nodes[s.entries[v].node].data.buf != Some(buf)
    ensures Cached(DeleteInternal(s, v), h) && Deletable(StoreBuffer(s, h, buf, expire), v)
    ensures StoreBuffer(DeleteInternal(s, v), h, buf, expire) == DeleteInternal(StoreBuffer(s, h, buf, expire), v)
  {
    var a := StoreBuffer(DeleteInternal(s, v), h, buf, expire);
    var b := DeleteInternal(StoreBuffer(s, h, buf, expire), v);
    assert a.nodes == b.nodes;
    assert a.buffers == b.buffers;
  }

  lemma StoreThenEvict(s: State, h: Handle, buf: nat, expire: int)
    requires Cached(s, h) && Evictable(s)
    requires |s.lru| > s.max ==>
      var n := s.lru[|s.lru| - 1];
      var v := s.nodes[n].at;
      && s.entries[v].node == n
      && (s.entries[v].locks == 0 ==>
            v != h && n != s.entries[h].node && (s.entries[v].isCs ==> s.nodes[n].data.buf != Some(buf)))
    ensures Cached(Evict(s), h) && Evictable(StoreBuffer(s, h, buf, expire))
    ensures StoreBuffer(Evict(s), h, buf, expire) == Evict(StoreBuffer(s, h, buf, expire))
  {
    if |s.lru| > s.max {
      var n := s.lru[|s.lru| - 1];
      var v := s.nodes[n].at;
      var s1 := Dequeue(s, n);
      assert StoreBuffer(s1, h, buf, expire) == Dequeue(StoreBuffer(s, h, buf, expire), n);
      if s.entries[v].locks == 0 {
        StoreThenDelete(s1, h, buf, expire, v);
      } else {
        StoreThenMark(s1, h, buf, expire, v);
      }
    }
  }

  lemma StoreConverts(s: State, h: Handle, buf: nat, rxFace: nat, expire: int)
    requires h in s.entries && s.entries[h].node in s.nodes && s.nodes[s.entries[h].node].data.Pit?
    ensures var s1 := Convert(s, h, None, rxFace, s.nodes[s.entries[h].node].data.expire);
      && Cached(s1, h)
      && StoreBuffer(s1, h, buf, expire) == Convert(s, h, Some(buf), rxFace, expire)
  {
  }

  lemma PitToCsEvictable(s: State, h: Handle, buf: nat, rxFace: nat)
    requires Inv(s, Some(h)) && !s.entries[h].isCs && |s.lru| <= s.max
    requires buf !in s.buffers
    ensures Deletable(s, h)
    ensures var s1 := Convert(s, h, None, rxFace, s.nodes[s.entries[h].node].data.expire);
      && Evictable(s1)
      && (|s1.lru| > s1.max ==>
            var n := s1.lru[|s1.lru| - 1];
            var v := s1.nodes[n].at;
            && s1.entries[v].node == n
            && (s1.entries[v].locks == 0 ==>
                  v != h && n != s.entries[h].node && (s1.entries[v].isCs ==> s1.nodes[n].data.buf != Some(buf))))
  {
    hide Ordered, Locked;
    CurLocked(s, h);
    EntryFacts(s, h);
    if s.lru != [] {
      Tail(s);
      var v := s.nodes[s.lru[|s.lru| - 1]].at;
      EntryFacts(s, v);
      Buffered(s, v);
    }
  }

  lemma Buffered(s: State, h: Handle)
    requires Ordered(s) && h in s.entries && s.entries[h].isCs
    ensures s.entries[h].node in s.nodes && s.nodes[s.entries[h].node].data.Cs?
    ensures s.nodes[s.entries[h].node].data.buf.Some? && s.nodes[s.entries[h].node].data.buf.value in s.buffers
  {
    hide Ticketed, Listed;
    assert s.nodes[s.entries[h].node].at == h;
  }

  /** Caching a data packet: convert, evict, store its buffer.  Storing it before the
      eviction would come to the same, because the converted entry is locked and so
      is not the one that is freed, even when it is its own victim. */
  lemma CacheKeeps(s: State, h: Handle, buf: nat, rxFace: nat, expire: int)
    requires Inv(s, Some(h)) && !s.entries[h].isCs && !s.entries[h].deleted && |s.lru| <= s.max
    requires buf !in s.buffers && buf !in s.packets
    ensures PitToCs.requires(s, h, rxFace)
    ensures var s1 := PitToCs(s, h, rxFace);
      && Cached(s1, h)
      && var s2 := StoreBuffer(s1, h, buf, expire);
      && Inv(s2, Some(h)) && |s2.lru| <= s2.max && s2.max == s.max
  {
    hide Ordered, Locked, Evict, Evictable;
    PitToCsEvictable(s, h, buf, rxFace);
    var s0 := Convert(s, h, None, rxFace, s.nodes[s.entries[h].node].data.expire);
    StoreThenEvict(s0, h, buf, expire);
    StoreConverts(s, h, buf, rxFace, expire);
    ConvertKeeps(s, Some(h), h, buf, rxFace, expire);
    EvictKeeps(Convert(s, h, Some(buf), rxFace, expire), Some(h));
  }

  // ------------------------------------------------- touching, adding faces, packets

  lemma TouchKeeps(s: State, cur: Option<Handle>, n: nat)
    requires Inv(s, cur) && n in s.lru
    ensures Inv(Touch(s, n), cur) && |Touch(s, n).lru| == |s.lru|
  {
    hide Paired, OwnsFaces, OwnsBuffers, Faced, Ticketed, Locked;
    var s' := Touch(s, n);
    WithoutMembers(s.lru, n);
    WithoutDistinct(s.lru, n);
    LruOnly(s, s'.lru, s'.csCount);
    LruOnlyLocked(s, cur, s'.lru, s'.csCount);
    LruOnlyPaired(s, s'.lru);
    assert forall m :: m in s'.lru <==> m in s.lru;
  }

  lemma LruOnlyPaired(s: State, lru: seq<nat>)
    requires Paired(s)
    ensures Paired(s.(lru := lru))
  {
  }

  lemma AddFaceListed(s: State, n: nat, face: nat)
    requires Paired(s) && Listed(s) && n in s.nodes && s.nodes[n].data.Pit?
    ensures Paired(AddFace(s, n, face)) && Listed(AddFace(s, n, face))
  {
  }

  lemma AddFaceOwned(s: State, n: nat, face: nat)
    requires Owned(s) && Faced(s) && Ticketed(s) && n in s.nodes && s.nodes[n].data.Pit?
    ensures Owned(AddFace(s, n, face)) && Faced(AddFace(s, n, face)) && Ticketed(AddFace(s, n, face))
  {
  }

  lemma AddFaceKeeps(s: State, cur: Option<Handle>, n: nat, face: nat)
    requires Inv(s, cur) && n in s.nodes && s.nodes[n].data.Pit?
    ensures Inv(AddFace(s, n, face), cur)
  {
    hide Paired, Owned, Faced, Listed, Ticketed;
    AddFaceListed(s, n, face);
    AddFaceOwned(s, n, face);
  }

  lemma FewerPackets(s: State, b: nat)
    requires Ordered(s)
    ensures Ordered(s.(packets := s.packets - {b}))
  {
    var s' := s.(packets := s.packets - {b});
    FewerListed(s, s'.packets);
    FewerOwned(s, b);
  }

  lemma FewerListed(s: State, packets: map<nat, Packet>)
    requires Paired(s) && Listed(s) && Faced(s)
    ensures var s' := s.(packets := packets); Paired(s') && Listed(s') && Faced(s')
  {
  }

  lemma FewerOwned(s: State, b: nat)
    requires Owned(s) && Ticketed(s)
    ensures var s' := s.(packets := s.packets - {b}); Owned(s') && Ticketed(s')
  {
  }

  lemma FewerLocked(s: State, b: nat, cur: Option<Handle>)
    requires Locked(s, None) && b in s.packets && (cur.Some? ==> cur.value in s.entries)
    requires forall h :: s.packets[b].stage.Holds(h) <==> cur == Some(h)
    ensures Locked(s.(packets := s.packets - {b}), cur)
  {
    var s' := s.(packets := s.packets - {b});
    forall h | h in s.entries
      ensures |Holders(s'.packets, h)| == |Holders(s.packets, h)| - Cur(cur, h)
    {
      HoldersWithout(s.packets, b, h);
    }
  }

  /** The running node takes over a packet without a ticket. */
  lemma TakePlainKeeps(s: State, b: nat)
    requires Inv(s, None) && b in s.packets && (s.packets[b].stage.Arrived? || s.packets[b].stage.AtStrategy?)
    ensures Inv(s.(packets := s.packets - {b}), None)
  {
    hide Ordered, Locked;
    FewerPackets(s, b);
    FewerLocked(s, b, None);
  }

  /** The running node takes over a packet, and the packet's lock. */
  lemma TakeTicketKeeps(s: State, b: nat)
    requires Inv(s, None) && b in s.packets
    requires s.packets[b].stage.AtHitPit? || s.packets[b].stage.AtHitCs? || s.packets[b].stage.AtDataFwd?
    ensures Current(s, s.packets[b].stage.ticket, s.packets[b].hash)
    ensures s.packets[b].stage.AtHitCs? ==> s.entries[s.packets[b].stage.ticket.h].isCs
    ensures Inv(s.(packets := s.packets - {b}), Some(s.packets[b].stage.ticket.h))
  {
    TicketOf(s, b);
    hide Ordered, Locked;
    FewerPackets(s, b);
    FewerLocked(s, b, Some(s.packets[b].stage.ticket.h));
  }

  lemma TicketOf(s: State, b: nat)
    requires Ticketed(s) && b in s.packets
    requires s.packets[b].stage.AtHitPit? || s.packets[b].stage.AtHitCs? || s.packets[b].stage.AtDataFwd?
    ensures Current(s, s.packets[b].stage.ticket, s.packets[b].hash)
    ensures s.packets[b].stage.AtHitCs? ==> s.entries[s.packets[b].stage.ticket.h].isCs
  {
  }

  lemma MoreOwned(s: State, b: nat, p: Packet)
    requires Owned(s) && b !in s.buffers
    ensures Owned(s.(packets := s.packets[b := p]))
  {
  }

  lemma MoreLocked(s: State, b: nat, p: Packet, cur: Option<Handle>)
    requires Locked(s, cur) && b !in s.packets
    requires forall h :: p.stage.Holds(h) <==> cur == Some(h)
    ensures Locked(s.(packets := s.packets[b := p]), None)
  {
    var s' := s.(packets := s.packets[b := p]);
    forall h | h in s.entries
      ensures |Holders(s'.packets, h)| == |Holders(s.packets, h)| + Cur(cur, h)
    {
      HoldersWith(s.packets, b, p, h);
    }
  }

  lemma PlainTicketed(s: State, b: nat, p: Packet)
    requires Ticketed(s) && (p.stage.Arrived? || p.stage.AtStrategy?)
    ensures Ticketed(s.(packets := s.packets[b := p]))
  {
  }

  lemma MoreTicketed(s: State, b: nat, p: Packet)
    requires Ticketed(s) && (p.stage.AtHitPit? || p.stage.AtHitCs? || p.stage.AtDataFwd?)
    requires Current(s, p.stage.ticket, p.hash)
    requires p.stage.AtHitCs? ==> s.entries[p.stage.ticket.h].isCs
    ensures Ticketed(s.(packets := s.packets[b := p]))
  {
  }

  /** A packet without a ticket is put in flight. */
  lemma PutPlainKeeps(s: State, b: nat, p: Packet)
    requires Inv(s, None) && b !in s.packets && b !in s.buffers && (p.stage.Arrived? || p.stage.AtStrategy?)
    ensures Inv(s.(packets := s.packets[b := p]), None)
  {
    hide Paired, Owned, Faced, Listed, Ticketed, Locked;
    FewerListed(s, s.packets[b := p]);
    MoreOwned(s, b, p);
    PlainTicketed(s, b, p);
    MoreLocked(s, b, p, None);
  }

  /** The running node hands its lock over to the packet. */
  lemma PutTicketKeeps(s: State, b: nat, p: Packet)
    requires p.stage.AtHitPit? || p.stage.AtHitCs? || p.stage.AtDataFwd?
    requires Inv(s, Some(p.stage.ticket.h)) && b !in s.packets && b !in s.buffers
    requires Current(s, p.stage.ticket, p.hash)
    requires p.stage.AtHitCs? ==> s.entries[p.stage.ticket.h].isCs
    ensures Inv(s.(packets := s.packets[b := p]), None)
  {
    hide Paired, Owned, Faced, Listed, Ticketed, Locked;
    FewerListed(s, s.packets[b := p]);
    MoreOwned(s, b, p);
    MoreTicketed(s, b, p);
    MoreLocked(s, b, p, Some(p.stage.ticket.h));
  }

  /** A lookup's lock, or an insert's surplus lock, is taken. */
  lemma LockedExtra(s: State, h: Handle)
    requires Locked(s, None) && h in s.entries
    ensures Locked(LockTwice(s, h), Some(h))
  {
  }

  lemma HistoryOrdered(s: State, extra: map<Handle, nat>)
    requires Ordered(s)
    ensures Ordered(s.(history := s.history.(extra := extra)))
  {
  }

  lemma LockTwiceKeeps(s: State, h: Handle)
    requires Inv(s, None) && h in s.entries
    ensures Inv(LockTwice(s, h), Some(h))
  {
    hide Ordered, Locked;
    var e := s.entries[h].(locks := s.entries[h].locks + 2);
    PutKeeps(s, h, e);
    LockedExtra(s, h);
    HistoryOrdered(PutEntry(s, h, e), LockTwice(s, h).history.extra);
  }

  // -------------------------------------------------------------------- new entries

  /** What the table promises of a slot and a node for a new entry. */
  predicate Fresh(s: State, h: Handle, node: nat, bucket: nat) {
    h !in s.entries && node !in s.nodes && bucket !in s.faceBuckets
  }

  lemma NewPaired(s: State, h: Handle, e: Entry, name: nat, face: nat, bucket: nat, expire: int)
    requires Paired(s) && Listed(s) && Fresh(s, h, e.node, bucket) && !e.isCs
    ensures var s' := NewPit(s, h, e, name, face, bucket, expire); Paired(s') && Listed(s')
  {
    var s' := NewPit(s, h, e, name, face, bucket, expire);
    assert Paired(s');
    forall m
      ensures m in s'.lru <==> m in s'.nodes && s'.nodes[m].data.Cs? && !s'.entries[s'.nodes[m].at].deleted
    {
      assert m in s.lru <==> m in s.nodes && s.nodes[m].data.Cs? && !s.entries[s.nodes[m].at].deleted;
    }
  }

  lemma NewOwnsFaces(s: State, h: Handle, e: Entry, name: nat, face: nat, bucket: nat, expire: int)
    requires OwnsFaces(s) && Faced(s) && Fresh(s, h, e.node, bucket)
    ensures var s' := NewPit(s, h, e, name, face, bucket, expire); OwnsFaces(s') && Faced(s')
  {
  }

  lemma NewOwnsBuffers(s: State, h: Handle, e: Entry, name: nat, face: nat, bucket: nat, expire: int)
    requires OwnsBuffers(s) && Fresh(s, h, e.node, bucket)
    ensures OwnsBuffers(NewPit(s, h, e, name, face, bucket, expire))
  {
  }

  lemma NewOwned(s: State, h: Handle, e: Entry, name: nat, face: nat, bucket: nat, expire: int)
    requires Owned(s) && Faced(s) && Fresh(s, h, e.node, bucket)
    ensures var s' := NewPit(s, h, e, name, face, bucket, expire);
      Owned(s') && Faced(s') && |s'.faceBuckets| == |s.faceBuckets| + 1
  {
    hide OwnsFaces, OwnsBuffers, Faced;
    NewOwnsFaces(s, h, e, name, face, bucket, expire);
    NewOwnsBuffers(s, h, e, name, face, bucket, expire);
  }

  lemma NewTicketed(s: State, h: Handle, e: Entry, name: nat, face: nat, bucket: nat, expire: int)
    requires Ticketed(s) && Fresh(s, h, e.node, bucket)
    ensures Ticketed(NewPit(s, h, e, name, face, bucket, expire))
  {
  }

  lemma NewLocked(s: State, h: Handle, e: Entry, name: nat, face: nat, bucket: nat, expire: int)
    requires Locked(s, None) && Ticketed(s) && Fresh(s, h, e.node, bucket) && e.locks == 0
    ensures Locked(NewPit(s, h, e, name, face, bucket, expire), None)
  {
    assert Holders(s.packets, h) == {};
  }

  lemma NewPitKeeps(s: State, h: Handle, e: Entry, name: nat, face: nat, bucket: nat, expire: int)
    requires Inv(s, None) && Fresh(s, h, e.node, bucket) && !e.isCs && e.locks == 0
    ensures Inv(NewPit(s, h, e, name, face, bucket, expire), None)
  {
    hide Paired, Owned, Faced, Listed, Ticketed, Locked;
    NewPaired(s, h, e, name, face, bucket, expire);
    NewOwned(s, h, e, name, face, bucket, expire);
    NewTicketed(s, h, e, name, face, bucket, expire);
    NewLocked(s, h, e, name, face, bucket, expire);
  }

  // ----------------------------------------------------- a cached buffer is replaced

  lemma SwapOwned(s: State, n: nat, buf: nat)
    requires Owned(s) && Faced(s) && Ticketed(s) && n in s.nodes && s.nodes[n].data.Cs? && s.nodes[n].data.buf.Some?
    requires buf !in s.buffers && buf !in s.packets
    ensures var s' := SwapBuffer(s, n, buf); Owned(s') && Faced(s') && Ticketed(s')
  {
  }

  lemma SwapListed(s: State, n: nat, buf: nat)
    requires Paired(s) && Listed(s) && n in s.nodes && s.nodes[n].data.Cs? && s.nodes[n].data.buf.Some?
    ensures var s' := SwapBuffer(s, n, buf); Paired(s') && Listed(s')
  {
  }

  lemma SwapKeeps(s: State, cur: Option<Handle>, n: nat, buf: nat)
    requires Inv(s, cur) && n in s.nodes && s.nodes[n].data.Cs? && s.nodes[n].data.buf.Some?
    requires buf !in s.buffers && buf !in s.packets
    ensures Inv(SwapBuffer(s, n, buf), cur)
  {
    hide Paired, Owned, Faced, Listed, Ticketed;
    SwapListed(s, n, buf);
    SwapOwned(s, n, buf);
  }
}
