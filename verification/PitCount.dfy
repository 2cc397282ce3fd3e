/** What the count of pending interests counts after a run from the start: the pending
    interests, and those that were freed by a release instead of a deletion. */
module PitCount {
  import opened Lists
  import opened Table
  import opened Pcs
  import opened PcsInvariant
  import opened Graph
  import Runs
  import HashTable

  /** The step releases a pending interest that is marked deleted, as its last holder:
      an interest that is malformed, for another name, retransmitted or aggregated, or
      data that is malformed or for another name. */
  predicate Leaks(s: State, step: Step) {
    && (step.HitPit? || step.DataFwd?)
    && step.b in s.packets
    && (s.packets[step.b].stage.AtHitPit? || s.packets[step.b].stage.AtDataFwd?)
    && var p := s.packets[step.b];
       var t := p.stage.ticket;
       && t.h in s.entries && t.node in s.nodes
       && !s.entries[t.h].isCs && s.entries[t.h].deleted && s.entries[t.h].locks == 1
       && (!step.parsed || s.nodes[t.node].name != p.name || (step.HitPit? && step.now <= s.nodes[t.node].data.expire))
  }

  // ------------------------------------------------------------------------- a step

  lemma RemoveLockLeaks(s: State, h: Handle)
    requires Deletable(s, h) && s.entries[h].locks > 0
    ensures RemoveLock(s, h).history.leaked ==
      s.history.leaked + if s.entries[h].locks == 1 && s.entries[h].deleted && !s.entries[h].isCs then 1 else 0
  {
  }

  lemma DeleteLeaks(s: State, h: Handle)
    requires Deletable(s, h) && s.entries[h].locks > 0
    ensures Delete(s, h).history.leaked == s.history.leaked && PitDelete(s, h).history.leaked == s.history.leaked
  {
    hide Without;
  }

  lemma PitToCsLeaks(s: State, h: Handle, rxFace: nat)
    requires PitToCs.requires(s, h, rxFace)
    ensures PitToCs(s, h, rxFace).history.leaked == s.history.leaked
  {
    hide Without;
  }

  lemma HitPitLeaks(s: State, step: Step)
    requires Safe(s) && Enabled(s, step) && step.HitPit?
    ensures Next(s, step).history.leaked == s.history.leaked + if Leaks(s, step) then 1 else 0
  {
    hide Ordered, Locked, Counted, RemoveLock, Delete;
    var s0 := Take(s, step.b);
    var p := s.packets[step.b];
    var t := p.stage.ticket;
    TakeTicketKeeps(s, step.b);
    RemoveLockKeeps(s0, t.h);
    EntryFacts(s0, t.h);
    RemoveLockLeaks(s0, t.h);
    DeleteLeaks(s0, t.h);
    if !s.entries[t.h].isCs {
      AddFaceKeeps(s0, Some(t.h), t.node, p.face);
      RemoveLockKeeps(AddFace(s0, t.node, p.face), t.h);
      RemoveLockLeaks(AddFace(s0, t.node, p.face), t.h);
    }
  }

  lemma HitCsLeaks(s: State, step: Step)
    requires Safe(s) && Enabled(s, step) && step.HitCs?
    ensures Next(s, step).history.leaked == s.history.leaked
  {
    hide Ordered, Locked, Counted, RemoveLock, Delete, Without;
    var s0 := Take(s, step.b);
    var t := s.packets[step.b].stage.ticket;
    TakeTicketKeeps(s, step.b);
    RemoveLockKeeps(s0, t.h);
    EntryFacts(s0, t.h);
    RemoveLockLeaks(s0, t.h);
    DeleteLeaks(s0, t.h);
    var s1 := if s.entries[t.h].deleted then s0 else Touch(s0, t.node);
    if !s.entries[t.h].deleted {
      TouchKeeps(s0, Some(t.h), t.node);
    }
    var s2 := if step.copy.Some? then SwapBuffer(s1, t.node, step.copy.value) else s1;
    if step.copy.Some? {
      SwapKeeps(s1, Some(t.h), t.node, step.copy.value);
    }
    RemoveLockKeeps(s2, t.h);
    RemoveLockLeaks(s2, t.h);
  }

  lemma DataFwdLeaks(s: State, step: Step)
    requires Safe(s) && Enabled(s, step) && step.DataFwd?
    ensures Next(s, step).history.leaked == s.history.leaked + if Leaks(s, step) then 1 else 0
  {
    hide Ordered, Locked, Counted, RemoveLock, Delete, PitDelete, PitToCs;
    var s0 := Take(s, step.b);
    var p := s.packets[step.b];
    var t := p.stage.ticket;
    TakeTicketKeeps(s, step.b);
    RemoveLockKeeps(s0, t.h);
    EntryFacts(s0, t.h);
    RemoveLockLeaks(s0, t.h);
    DeleteLeaks(s0, t.h);
    if !s.entries[t.h].isCs && !s.entries[t.h].deleted {
      NotBuffered(s, step.b);
      var expire := step.now + ClampLifetime(step.lifetime);
      CacheKeeps(s0, t.h, step.b, p.face, expire);
      PitToCsLeaks(s0, t.h, p.face);
      var s1 := StoreBuffer(PitToCs(s0, t.h, p.face), t.h, step.b, expire);
      RemoveLockKeeps(s1, t.h);
      CachedIsCs(s0, t.h, step.b, p.face, expire);
      RemoveLockLeaks(s1, t.h);
    }
  }

  lemma CachedIsCs(s: State, h: Handle, buf: nat, rxFace: nat, expire: int)
    requires PitToCs.requires(s, h, rxFace) && StoreBuffer.requires(PitToCs(s, h, rxFace), h, buf, expire)
    ensures StoreBuffer(PitToCs(s, h, rxFace), h, buf, expire).entries[h].isCs
  {
    hide Without;
  }

  lemma PlainLeaks(s: State, step: Step)
    requires Safe(s) && Enabled(s, step) && (step.Arrive? || step.InterestLookup? || step.DataLookup? || step.Strategy?)
    ensures Next(s, step).history.leaked == s.history.leaked
  {
    hide Inv, Matches;
  }

  lemma StepLeaks(s: State, step: Step)
    requires Safe(s) && Enabled(s, step)
    ensures Next(s, step).history.leaked == s.history.leaked + if Leaks(s, step) then 1 else 0
  {
    hide Inv, Next, Enabled;
    if step.HitPit? {
      HitPitLeaks(s, step);
    } else if step.HitCs? {
      HitCsLeaks(s, step);
    } else if step.DataFwd? {
      DataFwdLeaks(s, step);
    } else {
      PlainLeaks(s, step);
    }
  }

  // -------------------------------------------------------------------------- a run

  ghost function LeakCount(s: State, steps: seq<Step>): nat
    requires Safe(s) && Runs.Runs(s, steps)
    decreases |steps|
  {
    if steps == [] then 0
    else (if Leaks(s, steps[0]) then 1 else 0) + LeakCount(Next(s, steps[0]), steps[1..])
  }

  lemma {:induction false} RunLeaks(s: State, steps: seq<Step>)
    requires Safe(s) && Runs.Runs(s, steps)
    ensures Runs.Final(s, steps).history.leaked == s.history.leaked + LeakCount(s, steps)
    decreases |steps|
  {
    hide Inv, Safe, Next, Enabled, Runs.Runs, Runs.Final, Leaks;
    if steps == [] {
      Runs.RunsNone(s);
    } else {
      Runs.RunsFirst(s, steps);
      Runs.FirstStep(s, steps);
      StepLeaks(s, steps[0]);
      RunLeaks(Next(s, steps[0]), steps[1..]);
    }
  }

  /** It leaked at some moment of the run. */
  ghost predicate LeaksAt(s: State, steps: seq<Step>, i: nat)
    requires Safe(s) && Runs.Runs(s, steps) && i < |steps|
  {
    Runs.RunSplits(s, steps, i);
    Leaks(Runs.Final(s, steps[..i]), steps[i])
  }

  lemma LeaksFirst(s: State, steps: seq<Step>)
    requires Safe(s) && Runs.Runs(s, steps) && steps != []
    ensures LeaksAt(s, steps, 0) <==> Leaks(s, steps[0])
  {
    hide Inv, Safe, Next, Enabled, Runs.Runs, Runs.Final, Leaks;
    assert steps[..0] == [];
    Runs.RunsNone(s);
  }

  lemma LeaksLater(s: State, steps: seq<Step>, i: nat)
    requires Safe(s) && Runs.Runs(s, steps) && i + 1 < |steps| && Enabled(s, steps[0]) && Runs.Runs(Next(s, steps[0]), steps[1..])
    ensures LeaksAt(s, steps, i + 1) <==> LeaksAt(Next(s, steps[0]), steps[1..], i)
  {
    hide Inv, Safe, Next, Enabled, Runs.Runs, Runs.Final, Leaks;
    var front, rest := steps[..i + 1], steps[1..];
    assert front[0] == steps[0] && front[1..] == rest[..i] && steps[i + 1] == rest[i];
    Runs.RunSplits(s, steps, i + 1);
    Runs.FirstStep(s, front);
  }

  lemma {:induction false} NeverLeaksIff(s: State, steps: seq<Step>)
    requires Safe(s) && Runs.Runs(s, steps)
    ensures LeakCount(s, steps) == 0 <==> forall i: nat | i < |steps| :: !LeaksAt(s, steps, i)
    decreases |steps|
  {
    hide Inv, Safe, Next, Enabled, Runs.Runs, Runs.Final, Leaks;
    if steps != [] {
      Runs.RunsFirst(s, steps);
      Runs.FirstStep(s, steps);
      var s1, rest := Next(s, steps[0]), steps[1..];
      NeverLeaksIff(s1, rest);
      LeaksFirst(s, steps);
      forall i: nat | i < |rest|
        ensures LeaksAt(s, steps, i + 1) <==> LeaksAt(s1, rest, i)
      {
        LeaksLater(s, steps, i);
      }
      if forall i: nat | i < |steps| :: !LeaksAt(s, steps, i) {
        assert forall i: nat | i < |rest| :: !LeaksAt(s1, rest, i) by {
          forall i: nat | i < |rest|
            ensures !LeaksAt(s1, rest, i)
          {
            assert !LeaksAt(s, steps, i + 1);
          }
        }
      } else {
        var i: nat :| i < |steps| && LeaksAt(s, steps, i);
        if i > 0 {
          assert LeaksAt(s1, rest, i - 1);
        }
      }
    }
  }

  /** After any run the count is the number of pending interests and of such releases, so
      it is right if and only if there was none. */
  lemma PitCountIsRightIff(max: nat, nodeCount: nat, steps: seq<Step>)
    requires Runs.Runs(Runs.Initial(max, nodeCount), steps)
    ensures var s0 := Runs.Initial(max, nodeCount); var s := Runs.Final(s0, steps);
      && s.pitCount == |Runs.PitNodes(s)| + LeakCount(s0, steps)
      && (s.pitCount == |Runs.PitNodes(s)| <==> forall i: nat | i < |steps| :: !LeaksAt(s0, steps, i))
  {
    hide Inv, Safe, Runs.Runs, Runs.Final, LeakCount, LeaksAt, Runs.PitNodes, Runs.CsNodes;
    var s0 := Runs.Initial(max, nodeCount);
    Runs.EveryReachableState(max, nodeCount, steps);
    RunLeaks(s0, steps);
    NeverLeaksIff(s0, steps);
  }

  // ------------------------------------------------------------------- it goes wrong

  /** A pending interest is found by a second one; data that is not to be cached deletes
      it; the second interest is aggregated. */
  function Overtaken(h: Handle): seq<Step> {
    [Arrive(2, false, 7, 70, 4), InterestLookup(2, true, Some(h)),
     Arrive(3, true, 7, 70, 5), DataLookup(3, true, Some(h)), DataFwd(3, true, 0, true, 0), HitPit(2, true, 0)]
  }

  function Interest(h: Handle): Packet {
    Packet(false, 7, 70, 4, AtHitPit(Ticket(h, 1, 0)))
  }

  function Held(max: nat, nodeCount: nat, h: Handle): State {
    Runs.Pending(max, nodeCount, h).(entries := map[h := NewEntry(1, 7, 0, 0).(locks := 1)], packets := map[2 := Interest(h)])
  }

  function HeldTwice(max: nat, nodeCount: nat, h: Handle): State {
    Runs.Pending(max, nodeCount, h).(entries := map[h := NewEntry(1, 7, 0, 0).(locks := 2)],
                                     packets := map[2 := Interest(h), 3 := Packet(true, 7, 70, 5, AtDataFwd(Ticket(h, 1, 0)))])
  }

  function Marked(max: nat, nodeCount: nat, h: Handle): State {
    Held(max, nodeCount, h).(entries := map[h := NewEntry(1, 7, 0, 0).(locks := 1, deleted := true)])
  }

  function Empty(max: nat, nodeCount: nat): State {
    State(map[], map[], 1, 0, [], max, nodeCount, map[], map[], map[], History(1, map[], map[], 1))
  }

  lemma SecondFinds(max: nat, nodeCount: nat, h: Handle, rest: seq<Step>)
    requires Safe(Runs.Pending(max, nodeCount, h))
    ensures Safe(Held(max, nodeCount, h))
    ensures Runs.Runs(Held(max, nodeCount, h), rest) ==>
      && Runs.Runs(Runs.Pending(max, nodeCount, h), Overtaken(h)[..2] + rest)
      && Runs.Final(Runs.Pending(max, nodeCount, h), Overtaken(h)[..2] + rest) == Runs.Final(Held(max, nodeCount, h), rest)
  {
    hide Inv;
    var k := Overtaken(h);
    var s0 := Runs.Pending(max, nodeCount, h);
    var s1 := Next(s0, k[0]);
    assert Matches(s1.entries[h], 7, false);
    var s2 := Next(s1, k[1]);
    assert s2 == Held(max, nodeCount, h);
    if Runs.Runs(s2, rest) {
      Runs.RunStep(s1, k[1], rest);
      Runs.RunStep(s0, k[0], [k[1]] + rest);
      assert k[..2] + rest == [k[0]] + ([k[1]] + rest);
    }
  }

  lemma DataFinds(max: nat, nodeCount: nat, h: Handle, rest: seq<Step>)
    requires Safe(Held(max, nodeCount, h))
    ensures Safe(HeldTwice(max, nodeCount, h))
    ensures Runs.Runs(HeldTwice(max, nodeCount, h), rest) ==>
      && Runs.Runs(Held(max, nodeCount, h), Overtaken(h)[2..4] + rest)
      && Runs.Final(Held(max, nodeCount, h), Overtaken(h)[2..4] + rest) == Runs.Final(HeldTwice(max, nodeCount, h), rest)
  {
    hide Inv;
    var k := Overtaken(h);
    var s2 := Held(max, nodeCount, h);
    var s3 := Next(s2, k[2]);
    assert Matches(s3.entries[h], 7, false);
    var s4 := Next(s3, k[3]);
    assert s4 == HeldTwice(max, nodeCount, h);
    if Runs.Runs(s4, rest) {
      Runs.RunStep(s3, k[3], rest);
      Runs.RunStep(s2, k[2], [k[3]] + rest);
      assert k[2..4] + rest == [k[2]] + ([k[3]] + rest);
    }
  }

  lemma DataMarks(max: nat, nodeCount: nat, h: Handle, rest: seq<Step>)
    requires Safe(HeldTwice(max, nodeCount, h))
    ensures Safe(Marked(max, nodeCount, h))
    ensures Runs.Runs(Marked(max, nodeCount, h), rest) ==>
      && Runs.Runs(HeldTwice(max, nodeCount, h), Overtaken(h)[4..5] + rest)
      && Runs.Final(HeldTwice(max, nodeCount, h), Overtaken(h)[4..5] + rest) == Runs.Final(Marked(max, nodeCount, h), rest)
  {
    hide Inv;
    var k := Overtaken(h);
    var s4 := HeldTwice(max, nodeCount, h);
    assert s4.packets - {3} == map[2 := Interest(h)];
    var s5 := Next(s4, k[4]);
    assert s5 == Marked(max, nodeCount, h);
    if Runs.Runs(s5, rest) {
      Runs.RunStep(s4, k[4], rest);
      assert k[4..5] + rest == [k[4]] + rest;
    }
  }

  lemma SecondLeaks(max: nat, nodeCount: nat, h: Handle)
    requires Safe(Marked(max, nodeCount, h))
    ensures Leaks(Marked(max, nodeCount, h), Overtaken(h)[5])
    ensures Runs.Runs(Marked(max, nodeCount, h), Overtaken(h)[5..])
    ensures Runs.Final(Marked(max, nodeCount, h), Overtaken(h)[5..]) == Empty(max, nodeCount)
  {
    hide Inv;
    var k := Overtaken(h);
    var s5 := Marked(max, nodeCount, h);
    var s0 := Take(s5, 2);
    assert s0.packets == map[];
    var s1 := AddFace(s0, 1, 4);
    Freed(s1, h);
    var s6 := Next(s5, k[5]);
    assert s6 == Empty(max, nodeCount);
    assert Runs.Runs(s6, []);
    Runs.RunStep(s5, k[5], []);
    assert k[5..] == [k[5]] + [];
  }

  /** The last release of the only entry. */
  lemma Freed(s: State, h: Handle)
    requires Deletable(s, h) && s.entries.Keys == {h} && s.entries[h].locks == 1 && s.entries[h].deleted && !s.entries[h].isCs
    requires s.nodes.Keys == {s.entries[h].node} && s.faceBuckets.Keys == {s.nodes[s.entries[h].node].data.bucket}
    requires s.history.born.Keys == {h} && s.history.extra.Keys == {h}
    ensures RemoveLock(s, h) == s.(entries := map[], nodes := map[], faceBuckets := map[],
                                   history := s.history.(born := map[], extra := map[], leaked := s.history.leaked + 1))
  {
  }

  /** A run of nine steps after which there is no pending interest and the count is one. */
  lemma PitCountDrifts(max: nat, nodeCount: nat, h: Handle)
    requires nodeCount >= 2
    ensures Runs.Runs(Runs.Initial(max, nodeCount), Runs.AskTwice(h)[..3] + Overtaken(h))
    ensures var s := Runs.Final(Runs.Initial(max, nodeCount), Runs.AskTwice(h)[..3] + Overtaken(h));
      s.pitCount == 1 && s.nodes == map[]
  {
    hide Inv, Safe, Runs.Runs, Runs.Final;
    var k := Overtaken(h);
    Runs.Asked(max, nodeCount, h, k);
    SecondFinds(max, nodeCount, h, k[2..]);
    DataFinds(max, nodeCount, h, k[4..]);
    DataMarks(max, nodeCount, h, k[5..]);
    SecondLeaks(max, nodeCount, h);
    assert k[4..5] + k[5..] == k[4..] && k[2..4] + k[4..] == k[2..] && k[..2] + k[2..] == k;
  }
}
