/** What holds over every run of the forwarder's graph nodes. */
module Runs {
  import opened Lists
  import opened Table
  import opened Pcs
  import opened PcsInvariant
  import opened Graph
  import HashTable
  import CsLru

  // ------------------------------------------------------------------------- runs

  /** An empty PIT/CS. */
  function Initial(max: nat, nodeCount: nat): (s: State)
    ensures Safe(s)
  {
    var s := State(map[], map[], 0, 0, [], max, nodeCount, map[], map[], map[], History(0, map[], map[], 0));
    s
  }

  /** Each step of the list can be taken after those before it. */
  ghost predicate Runs(s: State, steps: seq<Step>)
    requires Safe(s)
    decreases |steps|
  {
    steps == [] || (Enabled(s, steps[0]) && Runs(Next(s, steps[0]), steps[1..]))
  }

  ghost function Final(s: State, steps: seq<Step>): (s': State)
    requires Safe(s) && Runs(s, steps)
    ensures Safe(s') && s'.max == s.max
    decreases |steps|
  {
    if steps == [] then s else Final(Next(s, steps[0]), steps[1..])
  }

  // -------------------------------------------------- what entries do under a change

  /** From one state to a later one: an entry older than the first state is the same
      entry it was there, and an entry with surplus locks is still there. */
  ghost predicate Evolves(s: State, s': State) {
    && s.history.clock <= s'.history.clock
    && (forall h | h in s'.entries && h in s'.history.born && s'.history.born[h] < s.history.clock ::
          && h in s.entries && h in s.history.born
          && s.history.born[h] == s'.history.born[h]
          && s.entries[h].node == s'.entries[h].node
          && s.entries[h].hash == s'.entries[h].hash
          && (s.entries[h].isCs ==> s'.entries[h].isCs)
          && (s.entries[h].deleted ==> s'.entries[h].deleted))
    && (forall h | h in s.entries && h in s.history.extra && h in s.history.born && s.history.extra[h] > 0 ::
          && h in s'.entries && h in s'.history.extra && h in s'.history.born
          && s'.history.born[h] == s.history.born[h]
          && s'.history.extra[h] >= s.history.extra[h])
  }

  lemma EvolvesOn(a: State, b: State, c: State)
    requires Evolves(a, b) && Evolves(b, c)
    requires forall h | h in a.entries && h in a.history.born :: a.history.born[h] < a.history.clock
    ensures Evolves(a, c)
  {
  }

  lemma EvolvesFrame(s: State, s': State)
    requires s'.entries == s.entries && s'.history.born == s.history.born
    requires s'.history.extra == s.history.extra && s'.history.clock == s.history.clock
    ensures Evolves(s, s')
  {
  }

  lemma EvolvesPut(s: State, h: Handle, e: Entry)
    requires h in s.entries && e.node == s.entries[h].node && e.hash == s.entries[h].hash
    requires (s.entries[h].isCs ==> e.isCs) && (s.entries[h].deleted ==> e.deleted)
    ensures Evolves(s, PutEntry(s, h, e))
  {
  }

  lemma EvolvesDelete(s: State, h: Handle)
    requires Deletable(s, h) && (h in s.history.extra ==> s.history.extra[h] == 0)
    ensures Evolves(s, DeleteInternal(s, h))
  {
  }

  /** An entry without locks has no surplus lock. */
  lemma NoExtra(s: State, cur: Option<Handle>, h: Handle)
    requires Locked(s, cur) && h in s.entries && s.entries[h].locks - Cur(cur, h) == 0
    ensures h in s.history.extra && s.history.extra[h] == 0
  {
  }

  lemma BornBefore(s: State, cur: Option<Handle>)
    requires Locked(s, cur)
    ensures forall h | h in s.entries && h in s.history.born :: s.history.born[h] < s.history.clock
  {
  }

  lemma EvolvesRemoveLock(s: State, h: Handle)
    requires Inv(s, Some(h)) && Deletable(s, h) && s.entries[h].locks > 0
    ensures Evolves(s, RemoveLock(s, h))
  {
    hide Ordered, Locked, Counted, Evolves;
    BornBefore(s, Some(h));
    var s1 := Unlock(s, h);
    EvolvesPut(s, h, s1.entries[h]);
    if s1.entries[h].locks == 0 && s1.entries[h].deleted {
      NoExtra(s, Some(h), h);
      var s2 := if s.entries[h].isCs then s1 else Leak(s1);
      EvolvesFrame(s1, s2);
      EvolvesOn(s, s1, s2);
      EvolvesDelete(s2, h);
      EvolvesOn(s, s2, DeleteInternal(s2, h));
    }
  }

  lemma EvolvesPitDelete(s: State, h: Handle)
    requires Inv(s, Some(h)) && Deletable(s, h) && s.entries[h].locks > 0
    ensures Evolves(s, PitDelete(s, h))
  {
    hide Ordered, Locked, Counted, Evolves;
    BornBefore(s, Some(h));
    var s1 := Unlock(s, h);
    EvolvesPut(s, h, s1.entries[h]);
    if s1.entries[h].locks == 0 {
      NoExtra(s, Some(h), h);
      var s2 := s1.(pitCount := s1.pitCount - 1);
      EvolvesFrame(s1, s2);
      EvolvesOn(s, s1, s2);
      EvolvesDelete(s2, h);
      EvolvesOn(s, s2, DeleteInternal(s2, h));
    } else {
      EvolvesPut(s1, h, s1.entries[h].(deleted := true));
      EvolvesOn(s, s1, MarkDeleted(s1, h));
    }
  }

  lemma EvolvesCsDelete(s: State, h: Handle)
    requires Inv(s, Some(h)) && Deletable(s, h) && s.entries[h].locks > 0
    ensures Evolves(s, CsDelete(s, h))
  {
    hide Ordered, Locked, Counted, Evolves;
    BornBefore(s, Some(h));
    var s0 := if s.entries[h].deleted then s else Dequeue(s, s.entries[h].node);
    EvolvesFrame(s, s0);
    var s1 := Unlock(s0, h);
    EvolvesPut(s0, h, s1.entries[h]);
    EvolvesOn(s, s0, s1);
    if s1.entries[h].locks == 0 {
      NoExtra(s, Some(h), h);
      EvolvesDelete(s1, h);
      EvolvesOn(s, s1, DeleteInternal(s1, h));
    } else {
      EvolvesPut(s1, h, s1.entries[h].(deleted := true));
      EvolvesOn(s, s1, MarkDeleted(s1, h));
    }
  }

  lemma EvolvesRemoval(s: State, h: Handle)
    requires Inv(s, Some(h)) && Deletable(s, h) && s.entries[h].locks > 0
    ensures Evolves(s, Delete(s, h))
  {
    hide Inv, Evolves;
    EvolvesCsDelete(s, h);
    EvolvesPitDelete(s, h);
  }

  lemma EvolvesEvict(s: State, cur: Option<Handle>)
    requires Locked(s, cur) && Evictable(s)
    ensures Evolves(s, Evict(s))
  {
    hide Locked, Evolves;
    BornBefore(s, cur);
    if |s.lru| > s.max {
      var n := s.lru[|s.lru| - 1];
      var h := s.nodes[n].at;
      var s1 := Dequeue(s, n);
      EvolvesFrame(s, s1);
      if s.entries[h].locks == 0 {
        Unheld(s, cur, h);
        NoExtra(s, cur, h);
        EvolvesDelete(s1, h);
        EvolvesOn(s, s1, DeleteInternal(s1, h));
      } else {
        EvolvesPut(s1, h, s1.entries[h].(deleted := true));
        EvolvesOn(s, s1, MarkDeleted(s1, h));
      }
    } else {
      EvolvesFrame(s, s);
    }
  }

  lemma EvolvesConvert(s: State, cur: Option<Handle>, h: Handle, rxFace: nat, expire: int)
    requires Locked(s, cur) && h in s.entries && s.entries[h].node in s.nodes && s.nodes[s.entries[h].node].data.Pit?
    ensures Evolves(s, Convert(s, h, None, rxFace, expire)) && Locked(Convert(s, h, None, rxFace, expire), cur)
  {
  }

  lemma EvolvesCache(s: State, h: Handle, buf: nat, rxFace: nat, expire: int)
    requires Locked(s, Some(h)) && PitToCs.requires(s, h, rxFace) && Cached(PitToCs(s, h, rxFace), h)
    ensures Evolves(s, StoreBuffer(PitToCs(s, h, rxFace), h, buf, expire))
  {
    hide Locked, Evolves, Evict;
    BornBefore(s, Some(h));
    var s1 := Convert(s, h, None, rxFace, s.nodes[s.entries[h].node].data.expire);
    EvolvesConvert(s, Some(h), h, rxFace, s.nodes[s.entries[h].node].data.expire);
    EvolvesEvict(s1, Some(h));
    EvolvesOn(s, s1, Evict(s1));
    var s2 := StoreBuffer(Evict(s1), h, buf, expire);
    EvolvesFrame(Evict(s1), s2);
    EvolvesOn(s, Evict(s1), s2);
  }

  lemma EvolvesCaching(s: State, h: Handle, buf: nat, rxFace: nat, expire: int)
    requires Inv(s, Some(h)) && !s.entries[h].isCs && !s.entries[h].deleted && |s.lru| <= s.max
    requires buf !in s.buffers && buf !in s.packets
    ensures PitToCs.requires(s, h, rxFace) && Cached(PitToCs(s, h, rxFace), h)
    ensures var s1 := StoreBuffer(PitToCs(s, h, rxFace), h, buf, expire);
      Deletable(s1, h) && s1.entries[h].locks > 0 && Evolves(s, RemoveLock(s1, h))
  {
    hide Ordered, Locked, Counted, Evolves, PitToCs, StoreBuffer, RemoveLock;
    BornBefore(s, Some(h));
    CacheKeeps(s, h, buf, rxFace, expire);
    var s1 := StoreBuffer(PitToCs(s, h, rxFace), h, buf, expire);
    EvolvesCache(s, h, buf, rxFace, expire);
    RemoveLockKeeps(s1, h);
    EvolvesRemoveLock(s1, h);
    EvolvesOn(s, s1, RemoveLock(s1, h));
  }

  // -------------------------------------------------------------------- the steps

  /** Taking packets and putting them back is no change to the entries. */
  lemma EvolvesAround(a: State, b: State, c: State, d: State)
    requires Evolves(b, c)
    requires a.entries == b.entries && c.entries == d.entries
    requires a.history == b.history && c.history == d.history
    ensures Evolves(a, d)
  {
  }

  lemma EvolvesInterestLookup(s: State, step: Step)
    requires Safe(s) && Enabled(s, step) && step.InterestLookup?
    ensures Evolves(s, Next(s, step))
  {
    hide Inv, Evolves;
    var s0 := Take(s, step.b);
    if !step.parsed || step.found.None? {
      EvolvesFrame(s, Next(s, step));
    } else {
      var h := step.found.value;
      EvolvesPut(s0, h, Lock(s0, h).entries[h]);
      EvolvesAround(s, s0, Lock(s0, h), Next(s, step));
    }
  }

  lemma EvolvesDataLookup(s: State, step: Step)
    requires Safe(s) && Enabled(s, step) && step.DataLookup?
    ensures Evolves(s, Next(s, step))
  {
    hide Inv, Evolves;
    var s0 := Take(s, step.b);
    if !step.parsed || step.found.None? || s.entries[step.found.value].isCs {
      EvolvesFrame(s, Next(s, step));
    } else {
      var h := step.found.value;
      EvolvesPut(s0, h, Lock(s0, h).entries[h]);
      EvolvesAround(s, s0, Lock(s0, h), Next(s, step));
    }
  }

  lemma EvolvesTwice(s: State, h: Handle)
    requires h in s.entries
    ensures Evolves(s, LockTwice(s, h))
  {
  }

  lemma EvolvesNew(s: State, h: Handle, e: Entry, name: nat, face: nat, bucket: nat, expire: int)
    requires h !in s.entries
    ensures Evolves(s, NewPit(s, h, e, name, face, bucket, expire))
  {
  }

  lemma EvolvesStrategy(s: State, step: Step)
    requires Safe(s) && Enabled(s, step) && step.Strategy?
    ensures Evolves(s, Next(s, step))
  {
    hide Inv, Evolves;
    var s0 := Take(s, step.b);
    var p := s.packets[step.b];
    if !step.routed || |s.nodes| + 1 >= s.nodeCount || step.result.NoMem? {
      EvolvesFrame(s, Next(s, step));
    } else if step.result.Inserted? {
      var e := NewEntry(step.node, p.hash, step.dpo, step.vft);
      EvolvesNew(s0, step.result.h, e, p.name, p.face, step.bucket, step.expire);
      EvolvesAround(s, s0, Next(s, step), Next(s, step));
    } else {
      var h := step.result.h;
      EvolvesPut(s0, h, Lock(s0, h).entries[h]);
      EvolvesTwice(s0, h);
      EvolvesAround(s, s0, if s.entries[h].isCs then Lock(s0, h) else LockTwice(s0, h), Next(s, step));
    }
  }

  lemma EvolvesHitPit(s: State, step: Step)
    requires Safe(s) && Enabled(s, step) && step.HitPit?
    ensures Evolves(s, Next(s, step))
  {
    hide Ordered, Locked, Counted, Evolves, RemoveLock, Delete;
    var s0 := Take(s, step.b);
    var p := s.packets[step.b];
    var t := p.stage.ticket;
    TakeTicketKeeps(s, step.b);
    RemoveLockKeeps(s0, t.h);
    EntryFacts(s0, t.h);
    EvolvesRemoveLock(s0, t.h);
    EvolvesRemoval(s0, t.h);
    EvolvesAround(s, s0, RemoveLock(s0, t.h), RemoveLock(s0, t.h));
    EvolvesAround(s, s0, Delete(s0, t.h), Put(Delete(s0, t.h), step.b, p.(stage := AtStrategy)));
    EvolvesFrame(s, Put(s0, step.b, p.(stage := AtHitCs(t))));
    if !s.entries[t.h].isCs {
      AddFaceKeeps(s0, Some(t.h), t.node, p.face);
      var s1 := AddFace(s0, t.node, p.face);
      RemoveLockKeeps(s1, t.h);
      EvolvesRemoveLock(s1, t.h);
      EvolvesAround(s, s1, RemoveLock(s1, t.h), RemoveLock(s1, t.h));
    }
  }

  lemma EvolvesHitCs(s: State, step: Step)
    requires Safe(s) && Enabled(s, step) && step.HitCs?
    ensures Evolves(s, Next(s, step))
  {
    hide Ordered, Locked, Counted, Evolves, RemoveLock, Delete;
    var s0 := Take(s, step.b);
    var p := s.packets[step.b];
    var t := p.stage.ticket;
    TakeTicketKeeps(s, step.b);
    RemoveLockKeeps(s0, t.h);
    EntryFacts(s0, t.h);
    EvolvesRemoveLock(s0, t.h);
    EvolvesRemoval(s0, t.h);
    EvolvesAround(s, s0, RemoveLock(s0, t.h), RemoveLock(s0, t.h));
    EvolvesAround(s, s0, Delete(s0, t.h), Put(Delete(s0, t.h), step.b, p.(stage := AtStrategy)));
    var s1 := if s.entries[t.h].deleted then s0 else Touch(s0, t.node);
    if !s.entries[t.h].deleted {
      TouchKeeps(s0, Some(t.h), t.node);
    }
    var s2 := if step.copy.Some? then SwapBuffer(s1, t.node, step.copy.value) else s1;
    if step.copy.Some? {
      SwapKeeps(s1, Some(t.h), t.node, step.copy.value);
    }
    RemoveLockKeeps(s2, t.h);
    EvolvesRemoveLock(s2, t.h);
    EvolvesAround(s, s2, RemoveLock(s2, t.h), RemoveLock(s2, t.h));
  }

  lemma EvolvesDataFwd(s: State, step: Step)
    requires Safe(s) && Enabled(s, step) && step.DataFwd?
    ensures Evolves(s, Next(s, step))
  {
    hide Ordered, Locked, Counted, Evolves, RemoveLock, PitDelete, Delete, PitToCs, StoreBuffer;
    var s0 := Take(s, step.b);
    var p := s.packets[step.b];
    var t := p.stage.ticket;
    TakeTicketKeeps(s, step.b);
    RemoveLockKeeps(s0, t.h);
    EntryFacts(s0, t.h);
    EvolvesRemoveLock(s0, t.h);
    EvolvesRemoval(s0, t.h);
    EvolvesPitDelete(s0, t.h);
    EvolvesAround(s, s0, RemoveLock(s0, t.h), RemoveLock(s0, t.h));
    EvolvesAround(s, s0, Delete(s0, t.h), Delete(s0, t.h));
    EvolvesAround(s, s0, PitDelete(s0, t.h), PitDelete(s0, t.h));
    if !s.entries[t.h].isCs && !s.entries[t.h].deleted {
      NotBuffered(s, step.b);
      var expire := step.now + ClampLifetime(step.lifetime);
      EvolvesCaching(s0, t.h, step.b, p.face, expire);
      var s1 := StoreBuffer(PitToCs(s0, t.h, p.face), t.h, step.b, expire);
      EvolvesAround(s, s0, RemoveLock(s1, t.h), RemoveLock(s1, t.h));
    }
  }

  lemma EvolvesStep(s: State, step: Step)
    requires Safe(s) && Enabled(s, step)
    ensures Evolves(s, Next(s, step))
  {
    hide Inv, Evolves;
    match step {
      case Arrive(_, _, _, _, _) => EvolvesFrame(s, Next(s, step));
      case InterestLookup(_, _, _) => EvolvesInterestLookup(s, step);
      case DataLookup(_, _, _) => EvolvesDataLookup(s, step);
      case Strategy(_, _, _, _, _, _, _, _) => EvolvesStrategy(s, step);
      case HitPit(_, _, _) => EvolvesHitPit(s, step);
      case HitCs(_, _, _, _) => EvolvesHitCs(s, step);
      case DataFwd(_, _, _, _, _) => EvolvesDataFwd(s, step);
    }
  }

  lemma {:induction false} EvolvesRun(s: State, steps: seq<Step>)
    requires Safe(s) && Runs(s, steps)
    ensures Evolves(s, Final(s, steps))
    decreases |steps|
  {
    hide Inv, Evolves;
    if steps == [] {
      EvolvesFrame(s, s);
    } else {
      var s1 := Next(s, steps[0]);
      EvolvesStep(s, steps[0]);
      EvolvesRun(s1, steps[1..]);
      assert Final(s, steps) == Final(s1, steps[1..]);
      PastOfEntries(s);
      EvolvesOn(s, s1, Final(s, steps));
    }
  }

  /** Births and surplus locks are kept for the entries and for nothing else. */
  lemma PastOfEntries(s: State)
    requires Safe(s)
    ensures s.history.extra.Keys == s.entries.Keys && s.history.born.Keys == s.entries.Keys
    ensures forall h | h in s.history.born :: s.history.born[h] < s.history.clock
  {
    hide Ordered;
  }

  lemma FirstStep(s: State, steps: seq<Step>)
    requires Safe(s) && steps != [] && Enabled(s, steps[0])
    ensures Runs(s, steps) <==> Runs(Next(s, steps[0]), steps[1..])
    ensures Runs(s, steps) ==> Final(s, steps) == Final(Next(s, steps[0]), steps[1..])
  {
    hide Safe, Enabled, Next;
  }

  lemma RunsNone(s: State)
    requires Safe(s)
    ensures Runs(s, []) && Final(s, []) == s
  {
    hide Safe;
  }

  lemma RunsFirst(s: State, steps: seq<Step>)
    requires Safe(s) && steps != [] && Runs(s, steps)
    ensures Enabled(s, steps[0])
  {
    hide Safe, Enabled, Next;
  }

  lemma {:induction false} RunSplits(s: State, steps: seq<Step>, i: nat)
    requires Safe(s) && Runs(s, steps) && i <= |steps|
    ensures Runs(s, steps[..i]) && Runs(Final(s, steps[..i]), steps[i..])
    ensures Final(Final(s, steps[..i]), steps[i..]) == Final(s, steps)
    decreases |steps|
  {
    hide Safe, Enabled, Next, Runs, Final;
    if i == 0 {
      RunsNone(s);
      assert steps[..0] == [] && steps[0..] == steps;
    } else {
      var rest, front := steps[1..], steps[..i];
      RunsFirst(s, steps);
      FirstStep(s, steps);
      RunSplits(Next(s, steps[0]), rest, i - 1);
      assert front[0] == steps[0] && front[1..] == rest[..i - 1] && steps[i..] == rest[i - 1..];
      FirstStep(s, front);
    }
  }

  /** The last step of a run. */
  lemma LastStep(s: State, steps: seq<Step>)
    requires Safe(s) && Runs(s, steps) && steps != []
    ensures var front, last := steps[..|steps| - 1], steps[|steps| - 1];
      Runs(s, front) && Enabled(Final(s, front), last) && Final(s, steps) == Next(Final(s, front), last)
  {
    hide Safe, Enabled, Next, Runs, Final;
    var k := |steps| - 1;
    RunSplits(s, steps, k);
    var s', rest := Final(s, steps[..k]), steps[k..];
    RunsFirst(s', rest);
    FirstStep(s', rest);
    assert rest[1..] == [];
    RunsNone(Next(s', rest[0]));
  }

  /** The state after the first `i` steps. */
  ghost function Moment(s: State, steps: seq<Step>, i: nat): (s': State)
    requires Safe(s) && Runs(s, steps) && i <= |steps|
    ensures Safe(s')
  {
    RunSplits(s, steps, i);
    Final(s, steps[..i])
  }

  lemma MomentOfFront(s: State, steps: seq<Step>, k: nat, i: nat)
    requires Safe(s) && Runs(s, steps) && i <= k <= |steps|
    ensures Runs(s, steps[..k]) && Moment(s, steps[..k], i) == Moment(s, steps, i)
    ensures Moment(s, steps, |steps|) == Final(s, steps)
  {
    hide Safe, Runs, Final;
    RunSplits(s, steps, k);
    assert steps[..k][..i] == steps[..i];
    assert steps[..|steps|] == steps;
  }

  lemma MomentGoesOn(s: State, steps: seq<Step>, i: nat)
    requires Safe(s) && Runs(s, steps) && i < |steps|
    ensures Enabled(Moment(s, steps, i), steps[i]) && Moment(s, steps, i + 1) == Next(Moment(s, steps, i), steps[i])
  {
    hide Safe, Enabled, Next, Runs, Final;
    RunSplits(s, steps, i + 1);
    LastStep(s, steps[..i + 1]);
    assert steps[..i + 1][..i] == steps[..i];
  }

  // -------------------------------------------------------------------- main results

  /** While a packet holds a ticket, then at every moment in between, whatever the
      other packets did, the ticket denotes the entry and the node it was issued for. */
  lemma HandleStability(s: State, steps: seq<Step>, b: nat, b': nat, t: Ticket, i: nat)
    requires Safe(s) && Runs(s, steps) && i <= |steps|
    requires b in s.packets && s.packets[b].stage.Holds(t.h) && s.packets[b].stage.ticket == t
    requires var s' := Final(s, steps);
      b' in s'.packets && s'.packets[b'].stage.Holds(t.h) && s'.packets[b'].stage.ticket == t
    ensures Runs(s, steps[..i])
    ensures Current(Final(s, steps[..i]), t, s.packets[b].hash)
  {
    hide Ordered, Locked, Counted;
    RunSplits(s, steps, i);
    var s1 := Final(s, steps[..i]);
    TakeTicketKeeps(s, b);
    TakeTicketKeeps(Final(s, steps), b');
    EvolvesRun(s, steps[..i]);
    EvolvesRun(s1, steps[i..]);
    PastOfEntries(s);
  }

  /** What the invariant says of locks; module Locks says what the surplus counts. */
  lemma LocksCoverHolders(s: State, h: Handle)
    requires Safe(s) && h in s.entries
    ensures h in s.history.extra
    ensures s.entries[h].locks == |Holders(s.packets, h)| + s.history.extra[h]
  {
    hide Ordered;
  }

  /** An entry is freed only by the packet in the step, when no other packet holds it
      and it has no surplus lock. */
  lemma OnlyLastHolderFrees(s: State, step: Step, h: Handle)
    requires Safe(s) && Enabled(s, step) && h in s.entries && h !in Next(s, step).entries
    ensures Holders(s.packets, h) <= {step.b}
    ensures s.history.extra[h] == 0
  {
    EvolvesStep(s, step);
    hide Ordered, Counted;
    var s' := Next(s, step);
    forall b | b in Holders(s.packets, h) && b != step.b
      ensures false
    {
      OthersStay(s, step, b);
      TakeTicketKeeps(s', b);
    }
  }

  lemma RemoveLockFrame(s: State, h: Handle)
    requires Deletable(s, h) && s.entries[h].locks > 0
    ensures RemoveLock(s, h).packets == s.packets && PitDelete(s, h).packets == s.packets
  {
  }

  lemma CacheFrame(s: State, h: Handle, buf: nat, rxFace: nat, expire: int)
    requires PitToCs.requires(s, h, rxFace) && Cached(PitToCs(s, h, rxFace), h)
    ensures StoreBuffer(PitToCs(s, h, rxFace), h, buf, expire).packets == s.packets
  {
  }

  lemma OthersStayHitPit(s: State, step: Step, b: nat)
    requires Safe(s) && Enabled(s, step) && step.HitPit? && b in s.packets && b != step.b
    ensures b in Next(s, step).packets && Next(s, step).packets[b] == s.packets[b]
  {
    hide Ordered, Locked, Counted, RemoveLock, Delete;
    var s0 := Take(s, step.b);
    var p := s.packets[step.b];
    var t := p.stage.ticket;
    TakeTicketKeeps(s, step.b);
    RemoveLockKeeps(s0, t.h);
    EntryFacts(s0, t.h);
    RemoveLockFrame(s0, t.h);
    DeleteFrame(s0, t.h);
    if !s.entries[t.h].isCs {
      AddFaceKeeps(s0, Some(t.h), t.node, p.face);
      RemoveLockKeeps(AddFace(s0, t.node, p.face), t.h);
      RemoveLockFrame(AddFace(s0, t.node, p.face), t.h);
    }
  }

  lemma OthersStayHitCs(s: State, step: Step, b: nat)
    requires Safe(s) && Enabled(s, step) && step.HitCs? && b in s.packets && b != step.b
    ensures b in Next(s, step).packets && Next(s, step).packets[b] == s.packets[b]
  {
    hide Ordered, Locked, Counted, RemoveLock, Delete;
    var s0 := Take(s, step.b);
    var t := s.packets[step.b].stage.ticket;
    TakeTicketKeeps(s, step.b);
    RemoveLockKeeps(s0, t.h);
    EntryFacts(s0, t.h);
    RemoveLockFrame(s0, t.h);
    DeleteFrame(s0, t.h);
    var s1 := if s.entries[t.h].deleted then s0 else Touch(s0, t.node);
    if !s.entries[t.h].deleted {
      TouchKeeps(s0, Some(t.h), t.node);
    }
    var s2 := if step.copy.Some? then SwapBuffer(s1, t.node, step.copy.value) else s1;
    if step.copy.Some? {
      SwapKeeps(s1, Some(t.h), t.node, step.copy.value);
    }
    RemoveLockKeeps(s2, t.h);
    RemoveLockFrame(s2, t.h);
  }

  lemma OthersStayData(s: State, step: Step, b: nat)
    requires Safe(s) && Enabled(s, step) && step.DataFwd? && b in s.packets && b != step.b
    ensures b in Next(s, step).packets && Next(s, step).packets[b] == s.packets[b]
  {
    hide Ordered, Locked, Counted, RemoveLock, Delete, PitDelete, PitToCs, StoreBuffer;
    var s0 := Take(s, step.b);
    var p := s.packets[step.b];
    var t := p.stage.ticket;
    TakeTicketKeeps(s, step.b);
    RemoveLockKeeps(s0, t.h);
    EntryFacts(s0, t.h);
    RemoveLockFrame(s0, t.h);
    DeleteFrame(s0, t.h);
    if !s.entries[t.h].isCs && !s.entries[t.h].deleted {
      NotBuffered(s, step.b);
      var expire := step.now + ClampLifetime(step.lifetime);
      CacheKeeps(s0, t.h, step.b, p.face, expire);
      CacheFrame(s0, t.h, step.b, p.face, expire);
      var s1 := StoreBuffer(PitToCs(s0, t.h, p.face), t.h, step.b, expire);
      RemoveLockKeeps(s1, t.h);
      RemoveLockFrame(s1, t.h);
    }
  }

  /** A step leaves every other packet alone. */
  lemma OthersStay(s: State, step: Step, b: nat)
    requires Safe(s) && Enabled(s, step) && b in s.packets && b != step.b
    ensures b in Next(s, step).packets && Next(s, step).packets[b] == s.packets[b]
  {
    hide Inv, Enabled, Next;
    if step.HitPit? {
      OthersStayHitPit(s, step, b);
    } else if step.HitCs? {
      OthersStayHitCs(s, step, b);
    } else if step.DataFwd? {
      OthersStayData(s, step, b);
    } else if step.Strategy? {
      OthersStayStrategy(s, step, b);
    } else if step.Arrive? {
      OthersStayArrive(s, step, b);
    } else {
      OthersStayLookup(s, step, b);
    }
  }

  lemma LockPackets(s: State, h: Handle)
    requires h in s.entries
    ensures Lock(s, h).packets == s.packets && LockTwice(s, h).packets == s.packets
  {
  }

  lemma NewPitPackets(s: State, h: Handle, e: Entry, name: nat, face: nat, bucket: nat, expire: int)
    ensures NewPit(s, h, e, name, face, bucket, expire).packets == s.packets
  {
  }

  lemma PutPackets(s: State, b: nat, p: Packet, c: nat)
    requires c in s.packets && c != b
    ensures c in Put(s, b, p).packets && Put(s, b, p).packets[c] == s.packets[c]
  {
  }

  lemma TakePackets(s: State, b: nat, c: nat)
    requires c in s.packets && c != b
    ensures c in Take(s, b).packets && Take(s, b).packets[c] == s.packets[c] && Take(s, b).entries == s.entries && Take(s, b).history == s.history
  {
  }

  lemma OthersStayStrategy(s: State, step: Step, b: nat)
    requires Safe(s) && Enabled(s, step) && b in s.packets && b != step.b && step.Strategy?
    ensures b in Next(s, step).packets && Next(s, step).packets[b] == s.packets[b]
  {
    hide Ordered, Locked, Counted, Take, Put, Lock, LockTwice, NewPit;
    var p, s0 := s.packets[step.b], Take(s, step.b);
    TakePackets(s, step.b, b);
    match step.result
    case Inserted(h) =>
      NewPitPackets(s0, h, NewEntry(step.node, p.hash, step.dpo, step.vft), p.name, p.face, step.bucket, step.expire);
    case Exist(h) =>
      BornKnown(s, None, h);
      var t := TicketFor(s, h);
      LockPackets(s0, h);
      PutPackets(if s.entries[h].isCs then Lock(s0, h) else LockTwice(s0, h), step.b,
                 p.(stage := if s.entries[h].isCs then AtHitCs(t) else AtHitPit(t)), b);
    case NoMem =>
  }

  lemma OthersStayLookup(s: State, step: Step, b: nat)
    requires Safe(s) && Enabled(s, step) && b in s.packets && b != step.b && (step.InterestLookup? || step.DataLookup?)
    ensures b in Next(s, step).packets && Next(s, step).packets[b] == s.packets[b]
  {
    hide Ordered, Locked, Counted, Take, Put, Lock;
    var p, s0 := s.packets[step.b], Take(s, step.b);
    TakePackets(s, step.b, b);
    match step.found
    case None => PutPackets(s0, step.b, p.(stage := AtStrategy), b);
    case Some(h) =>
      BornKnown(s, None, h);
      var t := TicketFor(s, h);
      LockPackets(s0, h);
      PutPackets(Lock(s0, h), step.b, p.(stage := if s.entries[h].isCs then AtHitCs(t) else AtHitPit(t)), b);
      PutPackets(Lock(s0, h), step.b, p.(stage := AtDataFwd(t)), b);
  }

  lemma OthersStayArrive(s: State, step: Step, b: nat)
    requires Safe(s) && Enabled(s, step) && b in s.packets && b != step.b && step.Arrive?
    ensures b in Next(s, step).packets && Next(s, step).packets[b] == s.packets[b]
  {
    hide Inv;
  }

  /** A surplus lock is never dropped: the entry stays in the table for ever. */
  lemma SurplusLockIsForEver(s: State, steps: seq<Step>, h: Handle)
    requires Safe(s) && Runs(s, steps) && h in s.entries && h in s.history.extra && s.history.extra[h] > 0
    ensures var s' := Final(s, steps);
      && h in s'.entries && s'.entries[h].node == s.entries[h].node
      && s'.history.born[h] == s.history.born[h]
      && s'.entries[h].locks > |Holders(s'.packets, h)|
  {
    EvolvesRun(s, steps);
    hide Ordered;
    PastOfEntries(s);
    LocksCoverHolders(Final(s, steps), h);
  }

  /** The nodes that are pending interests. */
  function PitNodes(s: State): set<nat> {
    set n | n in s.nodes && s.nodes[n].data.Pit?
  }

  /** Two maps that undo each other have domains of the same size. */
  lemma {:induction false} InverseSizes(a: set<nat>, f: map<nat, nat>, g: map<nat, nat>)
    requires a == g.Keys
    requires forall x | x in f :: f[x] in g && g[f[x]] == x
    requires forall y | y in g :: g[y] in f && f[g[y]] == y
    ensures |a| == |f|
    decreases a
  {
    if a == {} {
      assert f.Keys == {};
    } else {
      var y :| y in a;
      var x := g[y];
      var f', g' := f - {x}, g - {y};
      assert a - {y} == g'.Keys;
      InverseSizes(a - {y}, f', g');
      assert f.Keys == f'.Keys + {x};
    }
  }

  lemma OneBucketEach(s: State)
    requires OwnsFaces(s)
    ensures |PitNodes(s)| == |s.faceBuckets|
  {
    var g := map n | n in PitNodes(s) :: s.nodes[n].data.bucket;
    InverseSizes(PitNodes(s), s.faceBuckets, g);
  }

  function CsNodes(s: State): set<nat> {
    set n | n in s.nodes && s.nodes[n].data.Cs?
  }

  /** Each cached packet has one buffer, no two the same, and the cache has no other. */
  lemma OneBufferEach(s: State)
    requires OwnsBuffers(s)
    ensures |CsNodes(s)| == |s.buffers|
    ensures forall n | n in CsNodes(s) :: s.nodes[n].data.buf.Some? && s.nodes[n].data.buf.value in s.buffers
    ensures forall m, n | m in CsNodes(s) && n in CsNodes(s) && m != n :: s.nodes[m].data.buf != s.nodes[n].data.buf
  {
    var g := map n | n in CsNodes(s) :: s.nodes[n].data.buf.value;
    InverseSizes(CsNodes(s), s.buffers, g);
  }

  /** In every reachable state the cache counters, the LRU list and the cached
      entries agree and respect the limit; the count of pending interests is their
      number plus those freed uncounted; and the face buckets in use are as many as
      the pending interests, so a pool as large as the node pool is never empty when
      a node could be had.  Each cached packet has a buffer of its own. */
  lemma EveryReachableState(max: nat, nodeCount: nat, steps: seq<Step>)
    requires Runs(Initial(max, nodeCount), steps)
    ensures var s := Final(Initial(max, nodeCount), steps);
      && (forall n :: n in s.lru <==>
            n in s.nodes && s.nodes[n].data.Cs? && s.nodes[n].at in s.entries && !s.entries[s.nodes[n].at].deleted)
      && s.csCount == |s.lru| <= max
      && s.pitCount == |PitNodes(s)| + s.history.leaked
      && |s.faceBuckets| == |PitNodes(s)| <= |s.nodes|
      && |s.buffers| == |CsNodes(s)|
      && (forall m, n | m in CsNodes(s) && n in CsNodes(s) && m != n :: s.nodes[m].data.buf != s.nodes[n].data.buf)
  {
    var s := Final(Initial(max, nodeCount), steps);
    FinalMax(Initial(max, nodeCount), steps);
    OneBucketEach(s);
    OneBufferEach(s);
    SubsetSize(PitNodes(s), s.nodes.Keys);
  }

  lemma FinalMax(s: State, steps: seq<Step>)
    requires Safe(s) && Runs(s, steps)
    ensures Safe(Final(s, steps)) && Final(s, steps).max == s.max
  {
  }

  // ----------------------------------------------------------- the surplus lock occurs

  /** Two interests for one name that both miss the table: the first installs the
      entry, the second finds it in its way and is given two locks. */
  function TwoInterests(h: Handle): seq<Step> {
    [Arrive(1, false, 7, 70, 3), Arrive(2, false, 7, 70, 4),
     InterestLookup(1, true, None), InterestLookup(2, true, None),
     Strategy(1, true, 1, 1, 0, 0, 100, HashTable.Inserted(h)),
     Strategy(2, true, 2, 2, 0, 0, 100, HashTable.Exist(h))]
  }

  lemma RunStep(s: State, step: Step, rest: seq<Step>)
    requires Safe(s) && Enabled(s, step) && Runs(Next(s, step), rest)
    ensures Runs(s, [step] + rest)
    ensures Final(s, [step] + rest) == Final(Next(s, step), rest)
  {
    assert ([step] + rest)[1..] == rest;
  }

  function Waiting(face: nat): Packet {
    Packet(false, 7, 70, face, AtStrategy)
  }

  /** After the two lookups both interests wait at the strategy node. */
  lemma BothWait(max: nat, nodeCount: nat, k: seq<Step>, rest: seq<Step>) returns (s: State)
    requires k == [Arrive(1, false, 7, 70, 3), Arrive(2, false, 7, 70, 4),
                   InterestLookup(1, true, None), InterestLookup(2, true, None)]
    ensures s == Initial(max, nodeCount).(packets := map[1 := Waiting(3), 2 := Waiting(4)])
    ensures Safe(s)
    ensures Runs(s, rest) ==> Runs(Initial(max, nodeCount), k + rest)
                              && Final(Initial(max, nodeCount), k + rest) == Final(s, rest)
  {
    hide Inv;
    var s0 := Initial(max, nodeCount);
    var s1 := Next(s0, k[0]);
    var s2 := Next(s1, k[1]);
    var s3 := Next(s2, k[2]);
    assert s3.packets == map[1 := Waiting(3), 2 := Waiting(4).(stage := Arrived)];
    s := Next(s3, k[3]);
    assert s.packets == map[1 := Waiting(3), 2 := Waiting(4)];
    if Runs(s, rest) {
      RunStep(s3, k[3], rest);
      RunStep(s2, k[2], [k[3]] + rest);
      RunStep(s1, k[1], [k[2]] + ([k[3]] + rest));
      RunStep(s0, k[0], [k[1]] + ([k[2]] + ([k[3]] + rest)));
      assert k + rest == [k[0]] + ([k[1]] + ([k[2]] + ([k[3]] + rest)));
    }
  }

  /** The first interest is installed, the second finds it in its way. */
  lemma BothInstall(s: State, k: seq<Step>, h: Handle)
    requires Safe(s) && s.nodeCount >= 3 && k == TwoInterests(h)[4..]
    requires s.packets == map[1 := Waiting(3), 2 := Waiting(4)] && s.entries == map[] && s.nodes == map[] && s.faceBuckets == map[]
    ensures Enabled(s, k[0]) && Enabled(Next(s, k[0]), k[1])
    ensures var s' := Next(Next(s, k[0]), k[1]);
      && h in s'.entries && h in s'.history.extra && s'.history.extra[h] == 1 && s'.entries[h].locks == 2
  {
    hide Inv;
    var s1 := Next(s, k[0]);
    assert s1.entries == map[h := NewEntry(1, 7, 0, 0)];
    assert Enabled(s1, k[1]);
  }

  /** So a run of six steps gives an entry a lock that is never dropped. */
  lemma SurplusLockIsReachable(max: nat, nodeCount: nat, h: Handle)
    requires nodeCount >= 3
    ensures Runs(Initial(max, nodeCount), TwoInterests(h))
    ensures var s := Final(Initial(max, nodeCount), TwoInterests(h));
      && h in s.entries && h in s.history.extra && s.history.extra[h] == 1
      && s.entries[h].locks == 2 && |Holders(s.packets, h)| == 1
  {
    hide Inv, Next, Enabled;
    var k := TwoInterests(h);
    var s4 := BothWait(max, nodeCount, k[..4], k[4..]);
    BothInstall(s4, k[4..], h);
    var s5 := Next(s4, k[4]);
    var s6 := Next(s5, k[5]);
    RunStep(s5, k[5], []);
    RunStep(s4, k[4], [k[5]] + []);
    assert k[4..] == [k[4]] + ([k[5]] + []) && k == k[..4] + k[4..];
    LocksCoverHolders(s6, h);
  }

  // ---------------------------------------------------------- the only cached packet

  /** An interest, the data for it, and the interest again. */
  function AskTwice(h: Handle): seq<Step> {
    [Arrive(1, false, 7, 70, 3), InterestLookup(1, true, None),
     Strategy(1, true, 1, 1, 0, 0, 100, HashTable.Inserted(h)),
     Arrive(2, true, 7, 70, 4), DataLookup(2, true, Some(h)), DataFwd(2, true, 0, true, 10),
     Arrive(3, false, 7, 70, 5), InterestLookup(3, true, Some(h))]
  }

  /** The pending interest alone, and its packet's answer alone. */
  function Pending(max: nat, nodeCount: nat, h: Handle): State {
    State(map[h := NewEntry(1, 7, 0, 0)], map[1 := Node(h, 70, Pit([3], 1, 100))], 1, 0, [], max, nodeCount,
          map[1 := 1], map[], map[], History(1, map[h := 0], map[h := 0], 0))
  }

  function Answered(max: nat, nodeCount: nat, h: Handle): State {
    State(map[h := NewEntry(1, 7, 0, 0).(isCs := true)], map[1 := Node(h, 70, Cs(Some(2), 4, 10))], 0, 1, [1], max, nodeCount,
          map[], map[2 := 1], map[], History(1, map[h := 0], map[h := 0], 0))
  }

  lemma Asked(max: nat, nodeCount: nat, h: Handle, rest: seq<Step>)
    requires nodeCount >= 2
    ensures Safe(Pending(max, nodeCount, h))
    ensures Runs(Pending(max, nodeCount, h), rest) ==>
      && Runs(Initial(max, nodeCount), AskTwice(h)[..3] + rest)
      && Final(Initial(max, nodeCount), AskTwice(h)[..3] + rest) == Final(Pending(max, nodeCount, h), rest)
  {
    hide Inv;
    var k := AskTwice(h);
    var s0 := Initial(max, nodeCount);
    var s1 := Next(s0, k[0]);
    var s2 := Next(s1, k[1]);
    assert s2.packets == map[1 := Waiting(3)];
    var s3 := Next(s2, k[2]);
    assert s3 == Pending(max, nodeCount, h);
    if Runs(s3, rest) {
      RunStep(s2, k[2], rest);
      RunStep(s1, k[1], [k[2]] + rest);
      RunStep(s0, k[0], [k[1]] + ([k[2]] + rest));
      assert k[..3] + rest == [k[0]] + ([k[1]] + ([k[2]] + rest));
    }
  }

  lemma AnswerIsCached(max: nat, nodeCount: nat, h: Handle, rest: seq<Step>)
    requires nodeCount >= 2 && max >= 1 && Safe(Pending(max, nodeCount, h))
    ensures Safe(Answered(max, nodeCount, h))
    ensures Runs(Answered(max, nodeCount, h), rest) ==>
      && Runs(Pending(max, nodeCount, h), AskTwice(h)[3..6] + rest)
      && Final(Pending(max, nodeCount, h), AskTwice(h)[3..6] + rest) == Final(Answered(max, nodeCount, h), rest)
  {
    hide Inv;
    var k := AskTwice(h);
    var s0 := Pending(max, nodeCount, h);
    var s1 := Next(s0, k[3]);
    assert Matches(s1.entries[h], 7, false);
    var s2 := Next(s1, k[4]);
    assert s2.packets == map[2 := Packet(true, 7, 70, 4, AtDataFwd(Ticket(h, 1, 0)))];
    var s3 := Next(s2, k[5]);
    assert s3 == Answered(max, nodeCount, h);
    if Runs(s3, rest) {
      RunStep(s2, k[5], rest);
      RunStep(s1, k[4], [k[5]] + rest);
      RunStep(s0, k[3], [k[4]] + ([k[5]] + rest));
      assert k[3..6] + rest == [k[3]] + ([k[4]] + ([k[5]] + rest));
    }
  }

  /** So it is found in the cache, the only packet there: the interest cannot be answered
      without breaking the LRU list. */
  lemma SoleHitIsReachable(max: nat, nodeCount: nat, h: Handle)
    requires nodeCount >= 2 && max >= 1
    ensures Runs(Initial(max, nodeCount), AskTwice(h))
    ensures var s := Final(Initial(max, nodeCount), AskTwice(h));
      && s.lru == [1] && 3 in s.packets && s.packets[3].stage.AtHitCs? && Serves(s, 3, true, 0)
      && (forall links, head, tail, count | CsLru.Represents(links, head, tail, count, s.lru) ::
            var (l, h, t, c) := CsLru.Updated(links, head, tail, count, 1, s.lru);
            !exists list :: CsLru.Represents(l, h, t, c, list))
  {
    hide Inv, CsLru.Represents, CsLru.Updated;
    var k := AskTwice(h);
    Asked(max, nodeCount, h, k[3..]);
    AnswerIsCached(max, nodeCount, h, k[6..]);
    var s := FoundAgain(max, nodeCount, h);
    assert k[3..6] + k[6..] == k[3..] && k[..3] + k[3..] == k;
    forall links, head, tail, count | CsLru.Represents(links, head, tail, count, s.lru)
      ensures var (l, h, t, c) := CsLru.Updated(links, head, tail, count, 1, s.lru);
        !exists list :: CsLru.Represents(l, h, t, c, list)
    {
      CsLru.UpdateIff(links, head, tail, count, 1, s.lru);
    }
  }

  lemma FoundAgain(max: nat, nodeCount: nat, h: Handle) returns (s: State)
    requires nodeCount >= 2 && max >= 1 && Safe(Answered(max, nodeCount, h))
    ensures Runs(Answered(max, nodeCount, h), AskTwice(h)[6..]) && s == Final(Answered(max, nodeCount, h), AskTwice(h)[6..])
    ensures s.lru == [1] && 3 in s.packets && s.packets[3].stage.AtHitCs? && Serves(s, 3, true, 0)
  {
    hide Inv;
    var k := AskTwice(h);
    var s0 := Answered(max, nodeCount, h);
    var s1 := Next(s0, k[6]);
    assert Matches(s1.entries[h], 7, false);
    s := Next(s1, k[7]);
    assert Runs(s, []);
    RunStep(s1, k[7], []);
    RunStep(s0, k[6], [k[7]] + []);
    assert k[6..] == [k[6]] + ([k[7]] + []);
  }
}
