/** The graph nodes of the forwarder (interest and data lookup, strategy, hit-PIT,
    hit-CS and data-forwarding nodes), each as one atomic step on one packet, and
    what holds over every run of such steps. */
module Graph {
  import opened Lists
  import opened Table
  import opened Pcs
  import opened PcsInvariant
  import HashTable

  const CS_LIFETIME_MAX := 24 * 3600 * 1000
  const CS_LIFETIME_DFLT := 5 * 60 * 1000

  /** The state between two steps. */
  ghost predicate Safe(s: State) {
    Inv(s, None) && |s.lru| <= s.max
  }

  /** One packet through one graph node.  Besides the packet `b`, a step carries
      what the node learns from outside: whether the packet parses, the time, the
      answers of the table and of the pools. */
  datatype Step =
    | Arrive(b: nat, isData: bool, hash: nat, name: nat, face: nat)
    | InterestLookup(b: nat, parsed: bool, found: Option<Handle>)
    | DataLookup(b: nat, parsed: bool, found: Option<Handle>)
    | Strategy(b: nat, routed: bool, node: nat, bucket: nat, dpo: nat, vft: nat, expire: int,
               result: HashTable.InsertResult)
    | HitPit(b: nat, parsed: bool, now: int)
    | HitCs(b: nat, parsed: bool, now: int, copy: Option<nat>)
    | DataFwd(b: nat, parsed: bool, now: int, cloned: bool, lifetime: nat)

  /** What the table answers to a lookup: a live entry with the hash, or nothing if
      there is none. */
  predicate Answers(s: State, hash: nat, found: Option<Handle>) {
    match found
    case Some(h) => h in s.entries && Matches(s.entries[h], hash, false)
    case None => forall h | h in s.entries :: !Matches(s.entries[h], hash, false)
  }

  /** What the table answers to an insert. */
  predicate Places(s: State, hash: nat, result: HashTable.InsertResult) {
    match result
    case Inserted(h) => h !in s.entries
    case Exist(h) => h in s.entries && Matches(s.entries[h], hash, false)
    case NoMem => forall h | h in s.entries :: !Matches(s.entries[h], hash, false)
  }

  /** The cached entry answers the interest, and is moved to the head of the LRU list.
      The code breaks the list if the entry is its only element (see module CsLru), so
      runs go on only as long as that does not happen. */
  predicate Serves(s: State, b: nat, parsed: bool, now: int)
    requires b in s.packets && s.packets[b].stage.AtHitCs?
  {
    var t := s.packets[b].stage.ticket;
    && parsed && t.node in s.nodes && t.h in s.entries
    && s.nodes[t.node].name == s.packets[b].name && now <= s.nodes[t.node].data.expire && !s.entries[t.h].deleted
  }

  predicate Enabled(s: State, step: Step) {
    match step
    case Arrive(b, _, hash, _, _) => b !in s.packets && b !in s.buffers && hash != 0
    case InterestLookup(b, _, found) =>
      b in s.packets && s.packets[b].stage.Arrived? && !s.packets[b].isData && Answers(s, s.packets[b].hash, found)
    case DataLookup(b, _, found) =>
      b in s.packets && s.packets[b].stage.Arrived? && s.packets[b].isData && Answers(s, s.packets[b].hash, found)
    case Strategy(b, _, node, bucket, _, _, _, result) =>
      && b in s.packets && s.packets[b].stage.AtStrategy?
      && node != 0 && node !in s.nodes && bucket !in s.faceBuckets
      && Places(s, s.packets[b].hash, result)
    case HitPit(b, _, _) => b in s.packets && s.packets[b].stage.AtHitPit?
    case HitCs(b, parsed, now, copy) =>
      && b in s.packets && s.packets[b].stage.AtHitCs?
      && (copy.Some? ==> copy.value !in s.packets && copy.value !in s.buffers)
      && (Serves(s, b, parsed, now) ==> |s.lru| > 1)
    case DataFwd(b, _, _, _, _) => b in s.packets && s.packets[b].stage.AtDataFwd?
  }

  function Take(s: State, b: nat): State {
    s.(packets := s.packets - {b})
  }

  function Put(s: State, b: nat, p: Packet): State {
    s.(packets := s.packets[b := p])
  }

  function TicketFor(s: State, h: Handle): Ticket
    requires h in s.entries && h in s.history.born
  {
    Ticket(h, s.entries[h].node, s.history.born[h])
  }

  lemma BornKnown(s: State, cur: Option<Handle>, h: Handle)
    requires Inv(s, cur) && h in s.entries
    ensures h in s.history.born
  {
  }

  /** A lookup's lock passes to the packet. */
  function Lock(s: State, h: Handle): State
    requires h in s.entries
  {
    PutEntry(s, h, s.entries[h].(locks := s.entries[h].locks + 1))
  }

  /** interest-pcslookup: lock the entry found and go to the node for its kind. */
  function OnInterestLookup(s: State, b: nat, parsed: bool, found: Option<Handle>): (s': State)
    requires Safe(s) && Enabled(s, InterestLookup(b, parsed, found))
    ensures Safe(s') && s'.max == s.max
  {
    hide Ordered, Locked;
    var p := s.packets[b];
    var s0 := Take(s, b);
    TakePlainKeeps(s, b);
    if !parsed then s0
    else if found.None? then
      NotBuffered(s, b);
      PutPlainKeeps(s0, b, p.(stage := AtStrategy));
      Put(s0, b, p.(stage := AtStrategy))
    else
      var h := found.value;
      BornKnown(s, None, h);
      var t := TicketFor(s, h);
      var p' := p.(stage := if s.entries[h].isCs then AtHitCs(t) else AtHitPit(t));
      LockKeeps(s0, h);
      NotBuffered(s, b);
      PutTicketKeeps(Lock(s0, h), b, p');
      Put(Lock(s0, h), b, p')
  }

  /** The buffer of a packet in flight is not cached. */
  lemma NotBuffered(s: State, b: nat)
    requires Inv(s, None) && b in s.packets
    ensures b !in s.buffers
  {
  }

  /** data-pcslookup: lock a pending interest; drop the packet on anything else. */
  function OnDataLookup(s: State, b: nat, parsed: bool, found: Option<Handle>): (s': State)
    requires Safe(s) && Enabled(s, DataLookup(b, parsed, found))
    ensures Safe(s') && s'.max == s.max
  {
    hide Ordered, Locked;
    var p := s.packets[b];
    var s0 := Take(s, b);
    TakePlainKeeps(s, b);
    if !parsed || found.None? || s.entries[found.value].isCs then s0
    else
      var h := found.value;
      BornKnown(s, None, h);
      var p' := p.(stage := AtDataFwd(TicketFor(s, h)));
      LockKeeps(s0, h);
      NotBuffered(s, b);
      PutTicketKeeps(Lock(s0, h), b, p');
      Put(Lock(s0, h), b, p')
  }

  /** strategy: install a pending interest, unless the table is full or finds a live
      entry in the way. */
  function OnStrategy(s: State, b: nat, routed: bool, node: nat, bucket: nat, dpo: nat, vft: nat, expire: int,
                      result: HashTable.InsertResult): (s': State)
    requires Safe(s) && Enabled(s, Strategy(b, routed, node, bucket, dpo, vft, expire, result))
    ensures Safe(s') && s'.max == s.max
  {
    hide Ordered, Locked;
    var p := s.packets[b];
    var s0 := Take(s, b);
    TakePlainKeeps(s, b);
    if !routed || |s.nodes| + 1 >= s.nodeCount then s0
    else
      match result
      case Inserted(h) =>
        var e := NewEntry(node, p.hash, dpo, vft);
        NewPitKeeps(s0, h, e, p.name, p.face, bucket, expire);
        NewPit(s0, h, e, p.name, p.face, bucket, expire)
      case Exist(h) =>
        BornKnown(s, None, h);
        NotBuffered(s, b);
        var t := TicketFor(s, h);
        var p' := p.(stage := if s.entries[h].isCs then AtHitCs(t) else AtHitPit(t));
        var s1 := if s.entries[h].isCs then Lock(s0, h) else LockTwice(s0, h);
        LockKeeps(s0, h);
        LockTwiceKeeps(s0, h);
        PutTicketKeeps(s1, b, p');
        Put(s1, b, p')
      case NoMem => s0
  }

  /** interest-hitpit: collision, expiry, hand-over to hit-CS, retransmission or
      aggregation. */
  function OnHitPit(s: State, b: nat, parsed: bool, now: int): (s': State)
    requires Safe(s) && Enabled(s, HitPit(b, parsed, now))
    ensures Safe(s') && s'.max == s.max
  {
    hide Ordered, Locked;
    var p := s.packets[b];
    var t := p.stage.ticket;
    var s0 := Take(s, b);
    TakeTicketKeeps(s, b);
    RemoveLockKeeps(s0, t.h);
    EntryFacts(s0, t.h);
    if !parsed || s.nodes[t.node].name != p.name then RemoveLock(s0, t.h)
    else if now > s.nodes[t.node].data.expire then
      DeleteEntryKeeps(s0, t.h);
      DeleteFrame(s0, t.h);
      NotBuffered(s, b);
      PutPlainKeeps(Delete(s0, t.h), b, p.(stage := AtStrategy));
      Put(Delete(s0, t.h), b, p.(stage := AtStrategy))
    else if s.entries[t.h].isCs then
      NotBuffered(s, b);
      PutTicketKeeps(s0, b, p.(stage := AtHitCs(t)));
      Put(s0, b, p.(stage := AtHitCs(t)))
    else if p.face in s.nodes[t.node].data.faces then RemoveLock(s0, t.h)
    else
      AddFaceKeeps(s0, Some(t.h), t.node, p.face);
      RemoveLockKeeps(AddFace(s0, t.node, p.face), t.h);
      RemoveLock(AddFace(s0, t.node, p.face), t.h)
  }

  /** What deletion leaves alone. */
  lemma DeleteFrame(s: State, h: Handle)
    requires Deletable(s, h) && s.entries[h].locks > 0
    ensures Delete(s, h).packets == s.packets && Delete(s, h).max == s.max
    ensures forall b | b in Delete(s, h).buffers :: b in s.buffers
  {
  }

  /** interest-hitcs: answer from the cache. */
  function OnHitCs(s: State, b: nat, parsed: bool, now: int, copy: Option<nat>): (s': State)
    requires Safe(s) && Enabled(s, HitCs(b, parsed, now, copy))
    ensures Safe(s') && s'.max == s.max
  {
    hide Ordered, Locked;
    var p := s.packets[b];
    var t := p.stage.ticket;
    var s0 := Take(s, b);
    TakeTicketKeeps(s, b);
    RemoveLockKeeps(s0, t.h);
    EntryFacts(s0, t.h);
    if !parsed || s.nodes[t.node].name != p.name then RemoveLock(s0, t.h)
    else if now > s.nodes[t.node].data.expire then
      DeleteEntryKeeps(s0, t.h);
      DeleteFrame(s0, t.h);
      NotBuffered(s, b);
      PutPlainKeeps(Delete(s0, t.h), b, p.(stage := AtStrategy));
      Put(Delete(s0, t.h), b, p.(stage := AtStrategy))
    else
      var s1 := if s.entries[t.h].deleted then s0 else Touch(s0, t.node);
      assert Inv(s1, Some(t.h)) && |s1.lru| <= s.max by {
        if !s.entries[t.h].deleted { TouchKeeps(s0, Some(t.h), t.node); }
      }
      var s2 := if copy.Some? then SwapBuffer(s1, t.node, copy.value) else s1;
      assert Inv(s2, Some(t.h)) by {
        if copy.Some? { SwapKeeps(s1, Some(t.h), t.node, copy.value); }
      }
      RemoveLockKeeps(s2, t.h);
      RemoveLock(s2, t.h)
  }

  function ClampLifetime(lifetime: nat): nat {
    if lifetime > CS_LIFETIME_MAX then CS_LIFETIME_DFLT else lifetime
  }

  /** data-fwd: satisfy the faces, then cache the packet or delete the entry. */
  function OnDataFwd(s: State, b: nat, parsed: bool, now: int, cloned: bool, lifetime: nat): (s': State)
    requires Safe(s) && Enabled(s, DataFwd(b, parsed, now, cloned, lifetime))
    ensures Safe(s') && s'.max == s.max
  {
    hide Ordered, Locked, Counted, RemoveLock, Delete, PitDelete, PitToCs, StoreBuffer;
    var p := s.packets[b];
    var t := p.stage.ticket;
    var s0 := Take(s, b);
    TakeTicketKeeps(s, b);
    RemoveLockKeeps(s0, t.h);
    EntryFacts(s0, t.h);
    ListStays(s0, t.h);
    if !parsed || s.nodes[t.node].name != p.name || s.entries[t.h].isCs then RemoveLock(s0, t.h)
    else if now > s.nodes[t.node].data.expire || s.entries[t.h].deleted then
      DeleteEntryKeeps(s0, t.h);
      DeleteFrame(s0, t.h);
      Delete(s0, t.h)
    else if !cloned || lifetime == 0 then
      PitDeleteKeeps(s0, t.h);
      PitDelete(s0, t.h)
    else
      NotBuffered(s, b);
      var expire := now + ClampLifetime(lifetime);
      CacheKeeps(s0, t.h, b, p.face, expire);
      var s1 := StoreBuffer(PitToCs(s0, t.h, p.face), t.h, b, expire);
      RemoveLockKeeps(s1, t.h);
      ListStays(s1, t.h);
      RemoveLock(s1, t.h)
  }

  /** Releasing or deleting an entry does not make the list longer. */
  lemma ListStays(s: State, h: Handle)
    requires Deletable(s, h) && s.entries[h].locks > 0
    ensures RemoveLock(s, h).lru == s.lru && RemoveLock(s, h).max == s.max
    ensures PitDelete(s, h).lru == s.lru && PitDelete(s, h).max == s.max
    ensures |Delete(s, h).lru| <= |s.lru|
  {
    WithoutShrinks(s.lru, s.entries[h].node);
    hide Without;
  }

  lemma {:induction false} WithoutShrinks(q: seq<nat>, n: nat)
    ensures |Without(q, n)| <= |q|
  {
    if q != [] {
      WithoutShrinks(q[1..], n);
    }
  }

  function Next(s: State, step: Step): (s': State)
    requires Safe(s) && Enabled(s, step)
    ensures Safe(s') && s'.max == s.max
  {
    match step
    case Arrive(b, isData, hash, name, face) =>
      PutPlainKeeps(s, b, Packet(isData, hash, name, face, Arrived));
      Put(s, b, Packet(isData, hash, name, face, Arrived))
    case InterestLookup(b, parsed, found) => OnInterestLookup(s, b, parsed, found)
    case DataLookup(b, parsed, found) => OnDataLookup(s, b, parsed, found)
    case Strategy(b, routed, node, bucket, dpo, vft, expire, result) =>
      OnStrategy(s, b, routed, node, bucket, dpo, vft, expire, result)
    case HitPit(b, parsed, now) => OnHitPit(s, b, parsed, now)
    case HitCs(b, parsed, now, copy) => OnHitCs(s, b, parsed, now, copy)
    case DataFwd(b, parsed, now, cloned, lifetime) => OnDataFwd(s, b, parsed, now, cloned, lifetime)
  }
}
