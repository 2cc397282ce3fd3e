/** What one step of the forwarder does to an entry, in terms of the packet that holds
    it: who asks for a name, what answers, and when an entry ends. */
module Life {
  import opened Lists
  import opened Table
  import opened Pcs
  import opened PcsInvariant
  import opened Graph
  import opened Ownership
  import Runs
  import Locks
  import HashTable

  // ------------------------------------------------------------- what a step is about

  /** The packet of the step holds this entry, parses and has its name. */
  predicate Fits(s: State, step: Step, h: Handle) {
    && (step.HitPit? || step.HitCs? || step.DataFwd?)
    && step.parsed && step.b in s.packets && s.packets[step.b].stage.Holds(h)
    && Known(s, h) && NodeOf(s, h).name == s.packets[step.b].name
  }

  predicate Known(s: State, h: Handle) {
    h in s.entries && s.entries[h].node in s.nodes
  }

  function NodeOf(s: State, h: Handle): Node
    requires Known(s, h)
  {
    s.nodes[s.entries[h].node]
  }

  /** It comes before the entry expires. */
  predicate InTime(s: State, step: Step, h: Handle) {
    Fits(s, step, h) && step.now <= NodeOf(s, h).data.expire
  }

  predicate Late(s: State, step: Step, h: Handle) {
    Fits(s, step, h) && step.now > NodeOf(s, h).data.expire
  }

  /** An interest is installed in this slot. */
  predicate Installs(s: State, step: Step, h: Handle) {
    step.Strategy? && step.routed && |s.nodes| + 1 < s.nodeCount && step.result == HashTable.Inserted(h) && step.b in s.packets
  }

  /** An interest comes in time to a pending one for its name. */
  predicate Joins(s: State, step: Step, h: Handle) {
    step.HitPit? && InTime(s, step, h) && !s.entries[h].isCs
  }

  /** An interest comes in time to a cached packet for its name. */
  predicate Replies(s: State, step: Step, h: Handle) {
    step.HitCs? && InTime(s, step, h)
  }

  /** Data comes in time to a pending interest for its name. */
  predicate Satisfies(s: State, step: Step, h: Handle) {
    step.DataFwd? && InTime(s, step, h) && !s.entries[h].isCs && !s.entries[h].deleted
  }

  predicate Caches(s: State, step: Step, h: Handle) {
    Satisfies(s, step, h) && step.cloned && step.lifetime > 0
  }

  /** The end of the lifetime of a packet that is cached in this step. */
  function Due(step: Step): int
    requires step.DataFwd?
  {
    step.now + if step.lifetime <= 86_400_000 then step.lifetime else 300_000
  }

  /** The node at the end of the list when one more is cached. */
  function Oldest(s: State, n: nat): nat {
    if s.lru == [] then n else s.lru[|s.lru| - 1]
  }

  /** Another packet, or this one itself, takes its place in the cache. */
  predicate Displaces(s: State, step: Step, h: Handle) {
    && step.DataFwd? && step.b in s.packets && s.packets[step.b].stage.AtDataFwd?
    && Caches(s, step, s.packets[step.b].stage.ticket.h)
    && |s.lru| >= s.max && h in s.entries && s.entries[h].node == Oldest(s, s.entries[s.packets[step.b].stage.ticket.h].node)
  }

  /** An entry that is still to be found ends in this step: a packet for its name comes
      too late, or data satisfies it and is not cached, or it is displaced. */
  predicate Ends(s: State, step: Step, h: Handle) {
    || (Late(s, step, h) && (step.DataFwd? ==> !s.entries[h].isCs))
    || (Satisfies(s, step, h) && !Caches(s, step, h))
    || Displaces(s, step, h)
  }

  // --------------------------------------------------------------------------- nodes

  /** The nodes with what this step writes into them. */
  ghost function Rewritten(s: State, step: Step): Nodes
    requires Safe(s) && Enabled(s, step)
  {
    if step.Strategy? && step.result.Inserted? && Installs(s, step, step.result.h) then
      var p := s.packets[step.b];
      s.nodes[step.node := Node(step.result.h, p.name, Pit([p.face], step.bucket, step.expire))]
    else if step.HitPit? || step.HitCs? || step.DataFwd? then
      var p := s.packets[step.b];
      RewrittenAt(s, step, p.stage.ticket.h, p.face)
    else
      s.nodes
  }

  function RewrittenAt(s: State, step: Step, h: Handle, face: nat): Nodes {
    if !Known(s, h) then s.nodes
    else
      var n, d := s.entries[h].node, NodeOf(s, h).data;
      if Joins(s, step, h) && d.Pit? && face !in d.faces then s.nodes[n := s.nodes[n].(data := d.(faces := d.faces + [face]))]
      else if Replies(s, step, h) && d.Cs? && step.copy.Some? then s.nodes[n := s.nodes[n].(data := d.(buf := step.copy))]
      else if Caches(s, step, h) then s.nodes[n := s.nodes[n].(data := Cs(Some(step.b), face, Due(step)))]
      else s.nodes
  }

  lemma FewerSelf(a: Nodes)
    ensures Fewer(a, a)
  {
  }

  lemma PlainRewrites(s: State, step: Step)
    requires Safe(s) && Enabled(s, step) && (step.Arrive? || step.InterestLookup? || step.DataLookup?)
    ensures Fewer(Rewritten(s, step), Next(s, step).nodes)
  {
    hide Inv, Matches, Fewer;
    FewerSelf(s.nodes);
  }

  lemma StrategyRewrites(s: State, step: Step)
    requires Safe(s) && Enabled(s, step) && step.Strategy?
    ensures Fewer(Rewritten(s, step), Next(s, step).nodes)
  {
    hide Inv, Matches, Fewer;
    FewerSelf(Rewritten(s, step));
  }

  lemma HitPitRewrites(s: State, step: Step)
    requires Safe(s) && Enabled(s, step) && step.HitPit?
    ensures Fewer(Rewritten(s, step), Next(s, step).nodes)
  {
    hide Ordered, Locked, Counted, RemoveLock, Delete, Fewer;
    var s0 := Take(s, step.b);
    var p := s.packets[step.b];
    var t := p.stage.ticket;
    TakeTicketKeeps(s, step.b);
    RemoveLockKeeps(s0, t.h);
    EntryFacts(s0, t.h);
    RemoveLockFewer(s0, t.h);
    DeleteFewer(s0, t.h);
    FewerSelf(s.nodes);
    if !s.entries[t.h].isCs {
      AddFaceKeeps(s0, Some(t.h), t.node, p.face);
      var s1 := AddFace(s0, t.node, p.face);
      RemoveLockKeeps(s1, t.h);
      RemoveLockFewer(s1, t.h);
    }
  }

  lemma HitCsRewrites(s: State, step: Step)
    requires Safe(s) && Enabled(s, step) && step.HitCs?
    ensures Fewer(Rewritten(s, step), Next(s, step).nodes)
  {
    hide Ordered, Locked, Counted, RemoveLock, Delete, Fewer, Without;
    var s0 := Take(s, step.b);
    var t := s.packets[step.b].stage.ticket;
    TakeTicketKeeps(s, step.b);
    RemoveLockKeeps(s0, t.h);
    EntryFacts(s0, t.h);
    RemoveLockFewer(s0, t.h);
    DeleteFewer(s0, t.h);
    var s1 := if s.entries[t.h].deleted then s0 else Touch(s0, t.node);
    if !s.entries[t.h].deleted {
      TouchKeeps(s0, Some(t.h), t.node);
    }
    var s2 := if step.copy.Some? then SwapBuffer(s1, t.node, step.copy.value) else s1;
    if step.copy.Some? {
      SwapKeeps(s1, Some(t.h), t.node, step.copy.value);
    }
    RemoveLockKeeps(s2, t.h);
    RemoveLockFewer(s2, t.h);
  }

  /** Converting, evicting and storing the buffer. */
  lemma CacheRewrites(s: State, h: Handle, buf: nat, rxFace: nat, expire: int)
    requires PitToCs.requires(s, h, rxFace) && StoreBuffer.requires(PitToCs(s, h, rxFace), h, buf, expire)
    requires PitToCs(s, h, rxFace).entries[h].node == s.entries[h].node
    ensures var n := s.entries[h].node;
      Fewer(s.nodes[n := s.nodes[n].(data := Cs(Some(buf), rxFace, expire))], StoreBuffer(PitToCs(s, h, rxFace), h, buf, expire).nodes)
  {
    hide Evict, Evictable;
    var n := s.entries[h].node;
    EvictFewer(Convert(s, h, None, rxFace, s.nodes[n].data.expire));
  }

  lemma FewerOn(a: Nodes, b: Nodes, c: Nodes)
    requires Fewer(a, b) && Fewer(b, c)
    ensures Fewer(a, c)
  {
  }

  lemma DataFwdRewrites(s: State, step: Step)
    requires Safe(s) && Enabled(s, step) && step.DataFwd?
    ensures Fewer(Rewritten(s, step), Next(s, step).nodes)
  {
    hide Ordered, Locked, Counted, RemoveLock, Delete, PitDelete, PitToCs, StoreBuffer, Fewer;
    var s0 := Take(s, step.b);
    var p := s.packets[step.b];
    var t := p.stage.ticket;
    TakeTicketKeeps(s, step.b);
    RemoveLockKeeps(s0, t.h);
    EntryFacts(s0, t.h);
    RemoveLockFewer(s0, t.h);
    DeleteFewer(s0, t.h);
    PitDeleteFewer(s0, t.h);
    if !s.entries[t.h].isCs && !s.entries[t.h].deleted {
      NotBuffered(s, step.b);
      var expire := step.now + ClampLifetime(step.lifetime);
      CacheKeeps(s0, t.h, step.b, p.face, expire);
      SameNode(s0, t.h, step.b, p.face, expire);
      CacheRewrites(s0, t.h, step.b, p.face, expire);
      var s1 := StoreBuffer(PitToCs(s0, t.h, p.face), t.h, step.b, expire);
      RemoveLockKeeps(s1, t.h);
      RemoveLockFewer(s1, t.h);
      if Caches(s, step, t.h) {
        FewerOn(Rewritten(s, step), s1.nodes, RemoveLock(s1, t.h).nodes);
      }
    }
  }

  /** Besides that, nodes only go. */
  lemma StepRewrites(s: State, step: Step)
    requires Safe(s) && Enabled(s, step)
    ensures Fewer(Rewritten(s, step), Next(s, step).nodes)
  {
    hide Inv, Next, Enabled, Rewritten, Fewer;
    if step.HitPit? {
      HitPitRewrites(s, step);
    } else if step.HitCs? {
      HitCsRewrites(s, step);
    } else if step.DataFwd? {
      DataFwdRewrites(s, step);
    } else if step.Strategy? {
      StrategyRewrites(s, step);
    } else {
      PlainRewrites(s, step);
    }
  }

  // ------------------------------------------------------------------------- entries

  type Marks = map<Handle, Entry>

  /** All other entries are there with the same node, hash, kind and mark. */
  ghost predicate SameBut(a: Marks, b: Marks, hs: set<Handle>) {
    forall g | g !in hs :: (g in a <==> g in b) && (g in a ==> b[g].(locks := 0) == a[g].(locks := 0))
  }

  predicate IsLive(c: Marks, h: Handle) {
    h in c && !c[h].deleted
  }

  /** The entry is gone or marked, the others are as before. */
  ghost predicate Ended(a: Marks, b: Marks, h: Handle) {
    SameBut(a, b, {h}) && !IsLive(b, h) && (h in b ==> h in a && b[h].(locks := 0, deleted := false) == a[h].(locks := 0, deleted := false))
  }

  lemma PitDeleteEnds(s: State, h: Handle)
    requires Deletable(s, h) && s.entries[h].locks > 0
    ensures Ended(s.entries, PitDelete(s, h).entries, h)
  {
  }

  lemma CsDeleteEnds(s: State, h: Handle)
    requires Deletable(s, h) && s.entries[h].locks > 0
    ensures Ended(s.entries, CsDelete(s, h).entries, h)
  {
    hide Without;
  }

  lemma DeleteEnds(s: State, h: Handle)
    requires Deletable(s, h) && s.entries[h].locks > 0
    ensures Ended(s.entries, Delete(s, h).entries, h)
  {
    hide Without, Ended;
    PitDeleteEnds(s, h);
    CsDeleteEnds(s, h);
  }

  lemma EvictEnds(s: State)
    requires Evictable(s)
    ensures if |s.lru| > s.max then Ended(s.entries, Evict(s).entries, s.nodes[s.lru[|s.lru| - 1]].at) else Evict(s) == s
  {
    hide Without;
  }

  // ------------------------------------------------------------ what ends and what goes on

  /** What of an entry never changes. */
  function Bare(e: Entry): Entry {
    e.(locks := 0, deleted := false, isCs := false)
  }

  /** An entry that was to be found is so afterwards exactly if it does not end; one that
      is there is cached exactly if it was or is cached now. */
  ghost predicate Settled(s: State, step: Step, c: Marks) {
    forall h | h in s.entries ::
      && (!s.entries[h].deleted ==> (IsLive(c, h) <==> !Ends(s, step, h)))
      && (h in c ==> Bare(c[h]) == Bare(s.entries[h]) && (c[h].isCs <==> s.entries[h].isCs || Caches(s, step, h)))
  }

  /** Entries are there as before but for their locks. */
  ghost predicate AllThere(a: Marks, b: Marks) {
    forall g | g in a :: g in b && b[g].(locks := 0) == a[g].(locks := 0)
  }

  lemma PlainOutcome(s: State, step: Step, c: Marks)
    requires AllThere(s.entries, c) && !step.HitPit? && !step.HitCs? && !step.DataFwd?
    ensures Settled(s, step, c)
  {
  }

  lemma HitOutcome(s: State, step: Step, c: Marks)
    requires (step.HitPit? || step.HitCs?) && step.b in s.packets && (s.packets[step.b].stage.AtHitPit? || s.packets[step.b].stage.AtHitCs?)
    requires var h := s.packets[step.b].stage.ticket.h;
      if Late(s, step, h) then Ended(s.entries, c, h) else Released(s.entries, c, h)
    ensures Settled(s, step, c)
  {
  }

  /** The entry has one lock less, and is gone only if it was marked. */
  ghost predicate Released(a: Marks, b: Marks, h: Handle) {
    && SameBut(a, b, {h})
    && (h in b ==> h in a && b[h].(locks := 0) == a[h].(locks := 0))
    && (IsLive(a, h) ==> h in b)
  }

  lemma RemoveLockReleases(s: State, h: Handle)
    requires Deletable(s, h) && s.entries[h].locks > 0
    ensures Released(s.entries, RemoveLock(s, h).entries, h)
  {
  }

  lemma SameReleased(a: Marks, h: Handle)
    ensures Released(a, a, h)
  {
  }

  lemma LockedThere(a: Marks, h: Handle, k: nat)
    requires h in a
    ensures AllThere(a, a[h := a[h].(locks := a[h].locks + k)])
  {
  }

  lemma LookupOutcome(s: State, step: Step)
    requires Safe(s) && Enabled(s, step) && (step.Arrive? || step.InterestLookup? || step.DataLookup?)
    ensures Settled(s, step, Next(s, step).entries)
  {
    hide Inv, Matches, Settled, AllThere;
    SameThere(s.entries);
    if !step.Arrive? && step.found.Some? {
      LockedThere(s.entries, step.found.value, 1);
    }
    PlainOutcome(s, step, Next(s, step).entries);
  }

  lemma SameThere(a: Marks)
    ensures AllThere(a, a)
  {
  }

  lemma NewThere(a: Marks, h: Handle, e: Entry)
    requires h !in a
    ensures AllThere(a, a[h := e])
  {
  }

  lemma LockEntries(s: State, h: Handle)
    requires h in s.entries
    ensures Lock(s, h).entries == s.entries[h := s.entries[h].(locks := s.entries[h].locks + 1)]
    ensures LockTwice(s, h).entries == s.entries[h := s.entries[h].(locks := s.entries[h].locks + 2)]
  {
  }

  lemma PutEntries(s: State, b: nat, p: Packet)
    ensures Put(s, b, p).entries == s.entries
  {
  }

  lemma NewPitEntries(s: State, h: Handle, e: Entry, name: nat, face: nat, bucket: nat, expire: int)
    ensures NewPit(s, h, e, name, face, bucket, expire).entries == s.entries[h := e]
  {
  }

  lemma StrategyOutcome(s: State, step: Step)
    requires Safe(s) && Enabled(s, step) && step.Strategy?
    ensures Settled(s, step, Next(s, step).entries)
  {
    hide Inv, Matches, Settled, AllThere, Put, Take, NewPit, Lock, LockTwice;
    var s0, p := Take(s, step.b), s.packets[step.b];
    Locks.TakeHistory(s, step.b);
    SameThere(s.entries);
    match step.result {
      case Inserted(h) =>
        var e := NewEntry(step.node, p.hash, step.dpo, step.vft);
        NewThere(s.entries, h, e);
        NewPitEntries(s0, h, e, p.name, p.face, step.bucket, step.expire);
      case Exist(h) =>
        BornKnown(s, None, h);
        LockEntries(s0, h);
        LockedThere(s.entries, h, 1);
        LockedThere(s.entries, h, 2);
        var t := TicketFor(s, h);
        PutEntries(if s.entries[h].isCs then Lock(s0, h) else LockTwice(s0, h), step.b,
                   p.(stage := if s.entries[h].isCs then AtHitCs(t) else AtHitPit(t)));
      case NoMem =>
    }
    PlainOutcome(s, step, Next(s, step).entries);
  }

  lemma HitPitOutcome(s: State, step: Step)
    requires Safe(s) && Enabled(s, step) && step.HitPit?
    ensures Settled(s, step, Next(s, step).entries)
  {
    hide Ordered, Locked, Counted, RemoveLock, Delete, Released, Ended, Settled;
    var s0 := Take(s, step.b);
    var p := s.packets[step.b];
    var t := p.stage.ticket;
    TakeTicketKeeps(s, step.b);
    RemoveLockKeeps(s0, t.h);
    EntryFacts(s0, t.h);
    RemoveLockReleases(s0, t.h);
    DeleteEnds(s0, t.h);
    SameReleased(s.entries, t.h);
    if !s.entries[t.h].isCs {
      AddFaceKeeps(s0, Some(t.h), t.node, p.face);
      var s1 := AddFace(s0, t.node, p.face);
      RemoveLockKeeps(s1, t.h);
      RemoveLockReleases(s1, t.h);
    }
    HitOutcome(s, step, Next(s, step).entries);
  }

  lemma HitCsOutcome(s: State, step: Step)
    requires Safe(s) && Enabled(s, step) && step.HitCs?
    ensures Settled(s, step, Next(s, step).entries)
  {
    hide Ordered, Locked, Counted, RemoveLock, Delete, Released, Ended, Settled, Without;
    var s0 := Take(s, step.b);
    var t := s.packets[step.b].stage.ticket;
    TakeTicketKeeps(s, step.b);
    RemoveLockKeeps(s0, t.h);
    EntryFacts(s0, t.h);
    RemoveLockReleases(s0, t.h);
    DeleteEnds(s0, t.h);
    var s1 := if s.entries[t.h].deleted then s0 else Touch(s0, t.node);
    if !s.entries[t.h].deleted {
      TouchKeeps(s0, Some(t.h), t.node);
    }
    var s2 := if step.copy.Some? then SwapBuffer(s1, t.node, step.copy.value) else s1;
    if step.copy.Some? {
      SwapKeeps(s1, Some(t.h), t.node, step.copy.value);
    }
    RemoveLockKeeps(s2, t.h);
    RemoveLockReleases(s2, t.h);
    HitOutcome(s, step, Next(s, step).entries);
  }

  /** Data that is not cached. */
  lemma DataOutcome(s: State, step: Step, c: Marks)
    requires step.DataFwd? && step.b in s.packets && s.packets[step.b].stage.AtDataFwd?
    requires var h := s.packets[step.b].stage.ticket.h;
      && !Caches(s, step, h)
      && if (Fits(s, step, h) && !s.entries[h].isCs) then Ended(s.entries, c, h) else Released(s.entries, c, h)
    ensures Settled(s, step, c)
  {
  }

  /** Data that is: `v` is displaced. */
  lemma CacheOutcome(s: State, step: Step, c1: Marks, c2: Marks, c: Marks, h: Handle, v: Handle)
    requires step.DataFwd? && step.b in s.packets && s.packets[step.b].stage.AtDataFwd? && h == s.packets[step.b].stage.ticket.h
    requires Caches(s, step, h) && h in s.entries && c1 == s.entries[h := s.entries[h].(isCs := true)]
    requires if |s.lru| >= s.max then v in c1 && Ended(c1, c2, v) else c2 == c1
    requires Released(c2, c, h) && h in c2
    requires |s.lru| >= s.max ==> forall g | g in s.entries :: s.entries[g].node == Oldest(s, s.entries[h].node) <==> g == v
    ensures Settled(s, step, c)
  {
  }

  /** The entries when data is cached. */
  lemma CacheEnds(s: State, h: Handle, buf: nat, rxFace: nat, expire: int)
    requires Inv(s, Some(h)) && !s.entries[h].isCs && !s.entries[h].deleted && |s.lru| <= s.max
    requires PitToCs.requires(s, h, rxFace) && Cached(PitToCs(s, h, rxFace), h)
    ensures var c1, c2 := s.entries[h := s.entries[h].(isCs := true)], StoreBuffer(PitToCs(s, h, rxFace), h, buf, expire).entries;
      if |s.lru| >= s.max
      then
        var v := At(s, Oldest(s, s.entries[h].node));
        && v in c1 && Ended(c1, c2, v)
        && forall g | g in s.entries :: s.entries[g].node == Oldest(s, s.entries[h].node) <==> g == v
      else c2 == c1
  {
    hide Locked, Counted, Owned, Faced, Ticketed, Evict, Evictable, Ended;
    var s1 := Convert(s, h, None, rxFace, s.nodes[s.entries[h].node].data.expire);
    EvictEnds(s1);
    EntryFacts(s, h);
    if s.lru != [] {
      Tail(s);
    }
  }

  function At(s: State, n: nat): Handle {
    if n in s.nodes then s.nodes[n].at else Handle(Row(0), 0)
  }

  lemma DataFwdOutcome(s: State, step: Step)
    requires Safe(s) && Enabled(s, step) && step.DataFwd?
    ensures Settled(s, step, Next(s, step).entries)
  {
    hide Ordered, Locked, Counted, RemoveLock, Delete, PitDelete, PitToCs, StoreBuffer, Released, Ended, Settled;
    var s0 := Take(s, step.b);
    var p := s.packets[step.b];
    var t := p.stage.ticket;
    TakeTicketKeeps(s, step.b);
    RemoveLockKeeps(s0, t.h);
    EntryFacts(s0, t.h);
    RemoveLockReleases(s0, t.h);
    DeleteEnds(s0, t.h);
    PitDeleteEnds(s0, t.h);
    if Caches(s, step, t.h) {
      NotBuffered(s, step.b);
      var expire := step.now + ClampLifetime(step.lifetime);
      CacheKeeps(s0, t.h, step.b, p.face, expire);
      CacheEnds(s0, t.h, step.b, p.face, expire);
      var s1 := StoreBuffer(PitToCs(s0, t.h, p.face), t.h, step.b, expire);
      RemoveLockKeeps(s1, t.h);
      RemoveLockReleases(s1, t.h);
      CacheOutcome(s, step, s.entries[t.h := s.entries[t.h].(isCs := true)], s1.entries, RemoveLock(s1, t.h).entries, t.h,
                   At(s, Oldest(s, t.node)));
    } else {
      DataOutcome(s, step, Next(s, step).entries);
    }
  }

  /** A step ends an entry exactly as `Ends` says, and makes a cached packet of it exactly
      as `Caches` says. */
  lemma StepOutcome(s: State, step: Step)
    requires Safe(s) && Enabled(s, step)
    ensures Settled(s, step, Next(s, step).entries)
  {
    hide Inv, Next, Enabled, Settled;
    if step.HitPit? {
      HitPitOutcome(s, step);
    } else if step.HitCs? {
      HitCsOutcome(s, step);
    } else if step.DataFwd? {
      DataFwdOutcome(s, step);
    } else if step.Strategy? {
      StrategyOutcome(s, step);
    } else {
      LookupOutcome(s, step);
    }
  }
}
