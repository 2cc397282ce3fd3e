/** What pending interests and cached packets own, a face bucket or a packet buffer, they
    give back in exactly one step: when they are freed, when a pending interest becomes a
    cached packet, or when a cached buffer is replaced by its copy. */
module Ownership {
  import opened Lists
  import opened Table
  import opened Pcs
  import opened PcsInvariant
  import opened Graph
  import Runs
  import HashTable

  type Nodes = map<nat, Node>

  function BufferOf(d: Data): Option<nat> {
    if d.Cs? then d.buf else None
  }

  function BucketOf(d: Data): Option<nat> {
    if d.Pit? then Some(d.bucket) else None
  }

  /** What a node owns it owned before, but for the new buffer `x` or bucket `y`. */
  ghost predicate FromBefore(a: Nodes, b: Nodes, x: nat, y: nat) {
    forall m | m in b ::
      && (BufferOf(b[m].data) in {None, Some(x)} || (m in a && BufferOf(b[m].data) == BufferOf(a[m].data)))
      && (BucketOf(b[m].data) in {None, Some(y)} || (m in a && BucketOf(b[m].data) == BucketOf(a[m].data)))
  }

  /** A node that stays keeps its buffer, but for the new one, and its bucket, unless it
      becomes a cached packet. */
  ghost predicate Keeping(a: Nodes, b: Nodes, x: nat) {
    forall m | m in a && m in b ::
      && (a[m].data.Cs? ==> b[m].data.Cs? && b[m].data.buf in {a[m].data.buf, Some(x)})
      && (a[m].data.Pit? ==> b[m].data.Cs? || b[m].data.bucket == a[m].data.bucket)
  }

  ghost predicate Stable(a: Nodes, b: Nodes, x: nat, y: nat) {
    FromBefore(a, b, x, y) && Keeping(a, b, x)
  }

  /** Nodes only go, and nothing else happens to them. */
  ghost predicate Fewer(a: Nodes, b: Nodes) {
    forall m | m in b :: m in a && b[m] == a[m]
  }

  lemma FewerStable(a: Nodes, b: Nodes, x: nat, y: nat)
    requires Fewer(a, b)
    ensures Stable(a, b, x, y)
  {
  }

  lemma SameStable(a: Nodes, x: nat, y: nat)
    ensures Stable(a, a, x, y)
  {
  }

  lemma StableThenFewer(a: Nodes, b: Nodes, c: Nodes, x: nat, y: nat)
    requires Stable(a, b, x, y) && Fewer(b, c)
    ensures Stable(a, c, x, y)
  {
  }

  // ---------------------------------------------------------------------- operations

  lemma RemoveLockFewer(s: State, h: Handle)
    requires Deletable(s, h) && s.entries[h].locks > 0
    ensures Fewer(s.nodes, RemoveLock(s, h).nodes)
  {
  }

  lemma PitDeleteFewer(s: State, h: Handle)
    requires Deletable(s, h) && s.entries[h].locks > 0
    ensures Fewer(s.nodes, PitDelete(s, h).nodes)
  {
  }

  lemma CsDeleteFewer(s: State, h: Handle)
    requires Deletable(s, h) && s.entries[h].locks > 0
    ensures Fewer(s.nodes, CsDelete(s, h).nodes)
  {
    hide Without;
  }

  lemma DeleteFewer(s: State, h: Handle)
    requires Deletable(s, h) && s.entries[h].locks > 0
    ensures Fewer(s.nodes, Delete(s, h).nodes)
  {
    hide Without, Fewer;
    PitDeleteFewer(s, h);
    CsDeleteFewer(s, h);
  }

  lemma EvictFewer(s: State)
    requires Evictable(s)
    ensures Fewer(s.nodes, Evict(s).nodes)
  {
    hide Without;
  }

  /** Converting, evicting and storing the buffer. */
  lemma CacheStable(s: State, h: Handle, buf: nat, rxFace: nat, expire: int, y: nat)
    requires PitToCs.requires(s, h, rxFace) && StoreBuffer.requires(PitToCs(s, h, rxFace), h, buf, expire)
    requires PitToCs(s, h, rxFace).entries[h].node == s.entries[h].node
    ensures Stable(s.nodes, StoreBuffer(PitToCs(s, h, rxFace), h, buf, expire).nodes, buf, y)
  {
    hide Evict, Evictable;
    var n := s.entries[h].node;
    EvictFewer(Convert(s, h, None, rxFace, s.nodes[n].data.expire));
  }

  lemma AddFaceStable(s: State, n: nat, face: nat, x: nat, y: nat)
    requires n in s.nodes && s.nodes[n].data.Pit?
    ensures Stable(s.nodes, AddFace(s, n, face).nodes, x, y)
  {
  }

  lemma SwapStable(s: State, n: nat, buf: nat, y: nat)
    requires n in s.nodes && s.nodes[n].data.Cs? && s.nodes[n].data.buf.Some?
    ensures Stable(s.nodes, SwapBuffer(s, n, buf).nodes, buf, y)
  {
  }

  // --------------------------------------------------------------------------- steps

  lemma LookupStable(s: State, step: Step, x: nat, y: nat)
    requires Safe(s) && Enabled(s, step) && (step.Arrive? || step.InterestLookup? || step.DataLookup?)
    ensures Stable(s.nodes, Next(s, step).nodes, x, y)
  {
    hide Inv, Stable;
    assert Next(s, step).nodes == s.nodes;
    SameStable(s.nodes, x, y);
  }

  lemma NewStable(a: Nodes, n: nat, node: Node, x: nat)
    requires n !in a && node.data.Pit?
    ensures Stable(a, a[n := node], x, node.data.bucket)
  {
  }

  lemma StrategyStable(s: State, step: Step, x: nat)
    requires Safe(s) && Enabled(s, step) && step.Strategy?
    ensures Stable(s.nodes, Next(s, step).nodes, x, step.bucket)
  {
    hide Inv, Matches, Stable;
    SameStable(s.nodes, x, step.bucket);
    if step.result.Inserted? {
      var p := s.packets[step.b];
      NewStable(s.nodes, step.node, Node(step.result.h, p.name, Pit([p.face], step.bucket, step.expire)), x);
    }
  }

  lemma HitPitStable(s: State, step: Step, x: nat, y: nat)
    requires Safe(s) && Enabled(s, step) && step.HitPit?
    ensures Stable(s.nodes, Next(s, step).nodes, x, y)
  {
    hide Ordered, Locked, Counted, RemoveLock, Delete, Stable, Fewer;
    var s0 := Take(s, step.b);
    var p := s.packets[step.b];
    var t := p.stage.ticket;
    TakeTicketKeeps(s, step.b);
    RemoveLockKeeps(s0, t.h);
    EntryFacts(s0, t.h);
    RemoveLockFewer(s0, t.h);
    DeleteFewer(s0, t.h);
    SameStable(s.nodes, x, y);
    FewerStable(s.nodes, RemoveLock(s0, t.h).nodes, x, y);
    FewerStable(s.nodes, Delete(s0, t.h).nodes, x, y);
    if !s.entries[t.h].isCs {
      AddFaceKeeps(s0, Some(t.h), t.node, p.face);
      var s1 := AddFace(s0, t.node, p.face);
      RemoveLockKeeps(s1, t.h);
      RemoveLockFewer(s1, t.h);
      AddFaceStable(s0, t.node, p.face, x, y);
      StableThenFewer(s.nodes, s1.nodes, RemoveLock(s1, t.h).nodes, x, y);
    }
  }

  /** The new buffer of a step, if it brings one. */
  function NewBuffer(step: Step): nat {
    if step.HitCs? && step.copy.Some? then step.copy.value else step.b
  }

  lemma HitCsStable(s: State, step: Step, y: nat)
    requires Safe(s) && Enabled(s, step) && step.HitCs?
    ensures Stable(s.nodes, Next(s, step).nodes, NewBuffer(step), y)
  {
    hide Ordered, Locked, Counted, RemoveLock, Delete, Stable, Fewer, Without;
    var x := NewBuffer(step);
    var s0 := Take(s, step.b);
    var t := s.packets[step.b].stage.ticket;
    TakeTicketKeeps(s, step.b);
    RemoveLockKeeps(s0, t.h);
    EntryFacts(s0, t.h);
    RemoveLockFewer(s0, t.h);
    DeleteFewer(s0, t.h);
    FewerStable(s.nodes, RemoveLock(s0, t.h).nodes, x, y);
    FewerStable(s.nodes, Delete(s0, t.h).nodes, x, y);
    var s1 := if s.entries[t.h].deleted then s0 else Touch(s0, t.node);
    if !s.entries[t.h].deleted {
      TouchKeeps(s0, Some(t.h), t.node);
    }
    SameStable(s.nodes, x, y);
    var s2 := if step.copy.Some? then SwapBuffer(s1, t.node, step.copy.value) else s1;
    if step.copy.Some? {
      SwapKeeps(s1, Some(t.h), t.node, step.copy.value);
      SwapStable(s1, t.node, step.copy.value, y);
    }
    RemoveLockKeeps(s2, t.h);
    RemoveLockFewer(s2, t.h);
    StableThenFewer(s.nodes, s2.nodes, RemoveLock(s2, t.h).nodes, x, y);
  }

  lemma DataFwdStable(s: State, step: Step, y: nat)
    requires Safe(s) && Enabled(s, step) && step.DataFwd?
    ensures Stable(s.nodes, Next(s, step).nodes, step.b, y)
  {
    hide Ordered, Locked, Counted, RemoveLock, Delete, PitDelete, PitToCs, StoreBuffer, Stable, Fewer;
    var s0 := Take(s, step.b);
    var p := s.packets[step.b];
    var t := p.stage.ticket;
    TakeTicketKeeps(s, step.b);
    RemoveLockKeeps(s0, t.h);
    EntryFacts(s0, t.h);
    RemoveLockFewer(s0, t.h);
    DeleteFewer(s0, t.h);
    PitDeleteFewer(s0, t.h);
    FewerStable(s.nodes, RemoveLock(s0, t.h).nodes, step.b, y);
    FewerStable(s.nodes, Delete(s0, t.h).nodes, step.b, y);
    FewerStable(s.nodes, PitDelete(s0, t.h).nodes, step.b, y);
    if !s.entries[t.h].isCs && !s.entries[t.h].deleted {
      NotBuffered(s, step.b);
      var expire := step.now + ClampLifetime(step.lifetime);
      CacheKeeps(s0, t.h, step.b, p.face, expire);
      SameNode(s0, t.h, step.b, p.face, expire);
      CacheStable(s0, t.h, step.b, p.face, expire, y);
      var s1 := StoreBuffer(PitToCs(s0, t.h, p.face), t.h, step.b, expire);
      RemoveLockKeeps(s1, t.h);
      RemoveLockFewer(s1, t.h);
      StableThenFewer(s.nodes, s1.nodes, RemoveLock(s1, t.h).nodes, step.b, y);
    }
  }

  /** A converted entry that is still there has its node. */
  lemma SameNode(s: State, h: Handle, buf: nat, rxFace: nat, expire: int)
    requires PitToCs.requires(s, h, rxFace) && h in PitToCs(s, h, rxFace).entries
    ensures PitToCs(s, h, rxFace).entries[h].node == s.entries[h].node
  {
    hide Without;
  }

  /** Over a step, for the one buffer and the one bucket it may bring. */
  lemma StepStable(s: State, step: Step)
    requires Safe(s) && Enabled(s, step)
    ensures exists y: nat :: y !in s.faceBuckets && Stable(s.nodes, Next(s, step).nodes, NewBuffer(step), y)
    ensures NewBuffer(step) !in s.buffers
  {
    hide Inv, Next, Stable, Answers;
    var y := if step.Strategy? then step.bucket else SomeFree(s.faceBuckets.Keys);
    match step {
      case Arrive(_, _, _, _, _) => LookupStable(s, step, NewBuffer(step), y);
      case InterestLookup(_, _, _) => LookupStable(s, step, NewBuffer(step), y);
      case DataLookup(_, _, _) => LookupStable(s, step, NewBuffer(step), y);
      case Strategy(_, _, _, _, _, _, _, _) => StrategyStable(s, step, NewBuffer(step));
      case HitPit(_, _, _) => HitPitStable(s, step, NewBuffer(step), y);
      case HitCs(_, _, _, _) => HitCsStable(s, step, y);
      case DataFwd(_, _, _, _, _) => DataFwdStable(s, step, y);
    }
    if !step.Arrive? {
      NotBuffered(s, step.b);
    }
    assert y !in s.faceBuckets && Stable(s.nodes, Next(s, step).nodes, NewBuffer(step), y);
  }

  /** Some number outside a finite set. */
  ghost function SomeFree(used: set<nat>): (y: nat)
    ensures y !in used
  {
    if used == {} then 0
    else
      var m := Largest(used);
      m + 1
  }

  ghost function Largest(used: set<nat>): (m: nat)
    requires used != {}
    ensures m in used && forall x | x in used :: x <= m
    decreases |used|
  {
    var x :| x in used;
    if used == {x} then x
    else
      assert used == (used - {x}) + {x};
      var m := Largest(used - {x});
      if m < x then x else m
  }

  // ------------------------------------------------------------------------- results

  /** A buffer leaves the cache exactly in the step that frees its node or gives that
      node another buffer. */
  lemma BufferLeavesIff(s: State, step: Step, b: nat)
    requires Safe(s) && Enabled(s, step) && b in s.buffers
    ensures var s', n := Next(s, step), s.buffers[b];
      && (b !in s'.buffers <==> n !in s'.nodes || BufferOf(s'.nodes[n].data) != Some(b))
      && (n in s'.nodes ==> BufferOf(s'.nodes[n].data) in {Some(b), Some(NewBuffer(step))})
  {
    hide Next, Locked, OwnsFaces, Listed, Ticketed;
    StepStable(s, step);
  }

  /** A face bucket goes back to its pool exactly in the step that frees its node or
      makes a cached packet of it. */
  lemma BucketLeavesIff(s: State, step: Step, y: nat)
    requires Safe(s) && Enabled(s, step) && y in s.faceBuckets
    ensures var s', n := Next(s, step), s.faceBuckets[y];
      y !in s'.faceBuckets <==> n !in s'.nodes || s'.nodes[n].data.Cs?
  {
    hide Next, Locked, OwnsBuffers, Listed, Ticketed;
    StepStable(s, step);
  }
}
