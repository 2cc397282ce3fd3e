/** How many locks an entry has after a run from the start, in terms of what happened in
    the run: one for each packet that holds it, and one for each time a strategy node
    found it in its way while it was pending. */
module Locks {
  import opened Lists
  import opened Table
  import opened Pcs
  import opened PcsInvariant
  import opened Graph
  import Runs
  import HashTable

  /** The step inserts an interest and finds this pending one in its way. */
  predicate Meets(s: State, step: Step, h: Handle) {
    && step.Strategy? && step.routed && |s.nodes| + 1 < s.nodeCount && step.result == HashTable.Exist(h)
    && h in s.entries && !s.entries[h].isCs
  }

  /** The entry in this slot is the one born then. */
  predicate IsBorn(s: State, h: Handle, birth: nat) {
    h in s.entries && h in s.history.born && s.history.born[h] == birth
  }

  /** How often that happens to it in a run. */
  ghost function Meetings(s: State, steps: seq<Step>, h: Handle, birth: nat): nat
    requires Safe(s) && Runs.Runs(s, steps)
    decreases |steps|
  {
    if steps == [] then 0
    else
      (if Meets(s, steps[0], h) && IsBorn(s, h, birth) then 1 else 0)
      + Meetings(Next(s, steps[0]), steps[1..], h, birth)
  }

  // ------------------------------------------------------------------------- a step

  /** Births and surplus locks are those of before, for the entries that are left. */
  ghost predicate Keeps(a: History, b: History) {
    && (forall h | h in b.extra :: h in a.extra && a.extra[h] == b.extra[h])
    && (forall h | h in b.born :: h in a.born && a.born[h] == b.born[h])
  }

  lemma RemoveLockPast(s: State, h: Handle)
    requires Deletable(s, h) && s.entries[h].locks > 0
    ensures Keeps(s.history, RemoveLock(s, h).history)
  {
  }

  lemma DeletePast(s: State, h: Handle)
    requires Deletable(s, h) && s.entries[h].locks > 0
    ensures Keeps(s.history, Delete(s, h).history) && Keeps(s.history, PitDelete(s, h).history)
  {
    hide Without;
    CsDeletePast(s, h);
  }

  lemma CsDeletePast(s: State, h: Handle)
    requires Deletable(s, h) && s.entries[h].locks > 0
    ensures Keeps(s.history, CsDelete(s, h).history)
  {
    hide Without;
  }

  lemma PitToCsPast(s: State, h: Handle, rxFace: nat)
    requires PitToCs.requires(s, h, rxFace)
    ensures Keeps(s.history, PitToCs(s, h, rxFace).history)
  {
  }

  lemma HitPitPast(s: State, step: Step)
    requires Safe(s) && Enabled(s, step) && step.HitPit?
    ensures Keeps(s.history, Next(s, step).history)
  {
    hide Ordered, Locked, Counted, RemoveLock, Delete, Keeps;
    var s0 := Take(s, step.b);
    var p := s.packets[step.b];
    var t := p.stage.ticket;
    TakeTicketKeeps(s, step.b);
    RemoveLockKeeps(s0, t.h);
    EntryFacts(s0, t.h);
    RemoveLockPast(s0, t.h);
    DeletePast(s0, t.h);
    SamePast(s.history);
    if !s.entries[t.h].isCs {
      AddFaceKeeps(s0, Some(t.h), t.node, p.face);
      RemoveLockKeeps(AddFace(s0, t.node, p.face), t.h);
      RemoveLockPast(AddFace(s0, t.node, p.face), t.h);
    }
  }

  lemma SamePast(a: History)
    ensures Keeps(a, a)
  {
  }

  lemma HitCsPast(s: State, step: Step)
    requires Safe(s) && Enabled(s, step) && step.HitCs?
    ensures Keeps(s.history, Next(s, step).history)
  {
    hide Ordered, Locked, Counted, RemoveLock, Delete, Keeps;
    var s0 := Take(s, step.b);
    var t := s.packets[step.b].stage.ticket;
    TakeTicketKeeps(s, step.b);
    RemoveLockKeeps(s0, t.h);
    EntryFacts(s0, t.h);
    RemoveLockPast(s0, t.h);
    DeletePast(s0, t.h);
    var s1 := if s.entries[t.h].deleted then s0 else Touch(s0, t.node);
    if !s.entries[t.h].deleted {
      TouchKeeps(s0, Some(t.h), t.node);
    }
    var s2 := if step.copy.Some? then SwapBuffer(s1, t.node, step.copy.value) else s1;
    if step.copy.Some? {
      SwapKeeps(s1, Some(t.h), t.node, step.copy.value);
    }
    RemoveLockKeeps(s2, t.h);
    RemoveLockPast(s2, t.h);
  }

  lemma KeepsOn(a: History, b: History, c: History)
    requires Keeps(a, b) && Keeps(b, c)
    ensures Keeps(a, c)
  {
  }

  lemma DataFwdPast(s: State, step: Step)
    requires Safe(s) && Enabled(s, step) && step.DataFwd?
    ensures Keeps(s.history, Next(s, step).history)
  {
    hide Ordered, Locked, Counted, RemoveLock, Delete, PitDelete, PitToCs, Keeps;
    var s0 := Take(s, step.b);
    var p := s.packets[step.b];
    var t := p.stage.ticket;
    TakeTicketKeeps(s, step.b);
    RemoveLockKeeps(s0, t.h);
    EntryFacts(s0, t.h);
    RemoveLockPast(s0, t.h);
    DeletePast(s0, t.h);
    if !s.entries[t.h].isCs && !s.entries[t.h].deleted {
      NotBuffered(s, step.b);
      var expire := step.now + ClampLifetime(step.lifetime);
      CacheKeeps(s0, t.h, step.b, p.face, expire);
      PitToCsPast(s0, t.h, p.face);
      var s1 := StoreBuffer(PitToCs(s0, t.h, p.face), t.h, step.b, expire);
      RemoveLockKeeps(s1, t.h);
      RemoveLockPast(s1, t.h);
      KeepsOn(s0.history, s1.history, RemoveLock(s1, t.h).history);
    }
  }

  lemma LookupPast(s: State, step: Step)
    requires Safe(s) && Enabled(s, step) && (step.Arrive? || step.InterestLookup? || step.DataLookup?)
    ensures Next(s, step).history == s.history
  {
    hide Inv;
  }

  /** An entry with the same birth has the same surplus, and one more if it was met; a
      new one has none. */
  ghost predicate Accounts(s: State, step: Step, s': State, h: Handle) {
    && h in s'.history.extra && h in s'.history.born
    && if IsBorn(s, h, s'.history.born[h])
       then h in s.history.extra && s'.history.extra[h] == s.history.extra[h] + if Meets(s, step, h) then 1 else 0
       else s'.history.extra[h] == 0 && s'.history.born[h] >= s.history.clock
  }

  /** The history after the strategy node. */
  function StrategyHistory(s: State, step: Step): History
    requires step.Strategy?
  {
    var p := s.history;
    if !step.routed || |s.nodes| + 1 >= s.nodeCount then p
    else
      match step.result
      case Inserted(h) => p.(clock := p.clock + 1, born := p.born[h := p.clock], extra := p.extra[h := 0])
      case Exist(h) =>
        if h in s.entries && !s.entries[h].isCs then p.(extra := p.extra[h := (if h in p.extra then p.extra[h] else 0) + 1]) else p
      case NoMem => p
  }

  lemma StrategyIs(s: State, step: Step)
    requires Safe(s) && Enabled(s, step) && step.Strategy?
    ensures Next(s, step).history == StrategyHistory(s, step)
  {
    hide Inv, Matches, Put, Take, NewPit, Lock, LockTwice;
    var s0, p := Take(s, step.b), s.packets[step.b];
    TakeHistory(s, step.b);
    match step.result
    case Inserted(h) =>
      NewPitHistory(s0, h, NewEntry(step.node, p.hash, step.dpo, step.vft), p.name, p.face, step.bucket, step.expire);
    case Exist(h) =>
      BornKnown(s, None, h);
      LockHistory(s0, h);
      var t := TicketFor(s, h);
      PutHistory(if s.entries[h].isCs then Lock(s0, h) else LockTwice(s0, h), step.b,
                 p.(stage := if s.entries[h].isCs then AtHitCs(t) else AtHitPit(t)));
    case NoMem =>
  }

  lemma TakeHistory(s: State, b: nat)
    ensures Take(s, b).history == s.history && Take(s, b).entries == s.entries
  {
  }

  lemma PutHistory(s: State, b: nat, p: Packet)
    ensures Put(s, b, p).history == s.history
  {
  }

  lemma LockHistory(s: State, h: Handle)
    requires h in s.entries
    ensures Lock(s, h).history == s.history
    ensures LockTwice(s, h).history == s.history.(extra := s.history.extra[h := (if h in s.history.extra then s.history.extra[h] else 0) + 1])
  {
  }

  lemma NewPitHistory(s: State, h: Handle, e: Entry, name: nat, face: nat, bucket: nat, expire: int)
    ensures NewPit(s, h, e, name, face, bucket, expire).history ==
      s.history.(clock := s.history.clock + 1, born := s.history.born[h := s.history.clock], extra := s.history.extra[h := 0])
  {
  }

  lemma StrategyPast(s: State, step: Step, h: Handle)
    requires Safe(s) && Enabled(s, step) && step.Strategy? && h in Next(s, step).entries
    ensures Accounts(s, step, Next(s, step), h)
  {
    hide Inv, Next, Matches;
    StrategyIs(s, step);
    Runs.PastOfEntries(s);
    Runs.PastOfEntries(Next(s, step));
  }

  lemma KeptAccounts(s: State, step: Step, s': State, h: Handle)
    requires Safe(s) && Safe(s') && Keeps(s.history, s'.history) && !step.Strategy? && h in s'.entries
    ensures Accounts(s, step, s', h)
  {
    hide Inv;
    Runs.PastOfEntries(s);
    Runs.PastOfEntries(s');
  }

  /** Only the strategy node makes history. */
  lemma StepKeepsPast(s: State, step: Step)
    requires Safe(s) && Enabled(s, step) && !step.Strategy?
    ensures Keeps(s.history, Next(s, step).history)
  {
    hide Inv, Next, Enabled, Keeps;
    SamePast(s.history);
    if step.HitPit? {
      HitPitPast(s, step);
    } else if step.HitCs? {
      HitCsPast(s, step);
    } else if step.DataFwd? {
      DataFwdPast(s, step);
    } else {
      LookupPast(s, step);
    }
  }

  lemma StepAccounts(s: State, step: Step, h: Handle)
    requires Safe(s) && Enabled(s, step) && h in Next(s, step).entries
    ensures Accounts(s, step, Next(s, step), h)
  {
    hide Inv, Next, Enabled, Keeps, Accounts;
    if step.Strategy? {
      StrategyPast(s, step, h);
    } else {
      StepKeepsPast(s, step);
      KeptAccounts(s, step, Next(s, step), h);
    }
  }

  // -------------------------------------------------------------------------- a run

  /** An entry that is there at the end and was born before is there all the time. */
  lemma StaysBorn(s: State, steps: seq<Step>, h: Handle, birth: nat)
    requires Safe(s) && Runs.Runs(s, steps) && steps != [] && Enabled(s, steps[0])
    requires Runs.Runs(Next(s, steps[0]), steps[1..])
    requires IsBorn(Runs.Final(Next(s, steps[0]), steps[1..]), h, birth) && IsBorn(s, h, birth)
    ensures IsBorn(Next(s, steps[0]), h, birth)
  {
    hide Inv, Next, Enabled;
    Runs.PastOfEntries(s);
    Runs.PastOfEntries(Next(s, steps[0]));
    Runs.EvolvesStep(s, steps[0]);
    Runs.EvolvesRun(Next(s, steps[0]), steps[1..]);
  }

  ghost function Surplus(s: State, h: Handle, birth: nat): nat {
    if IsBorn(s, h, birth) && h in s.history.extra then s.history.extra[h] else 0
  }

  lemma {:induction false} RunAccounts(s: State, steps: seq<Step>, h: Handle, birth: nat)
    requires Safe(s) && Runs.Runs(s, steps) && IsBorn(Runs.Final(s, steps), h, birth)
    ensures Surplus(Runs.Final(s, steps), h, birth) == Surplus(s, h, birth) + Meetings(s, steps, h, birth)
    decreases |steps|
  {
    hide Inv, Safe, Next, Enabled, Runs.Runs, Runs.Final, Meets;
    if steps == [] {
      Runs.RunsNone(s);
    } else {
      Runs.RunsFirst(s, steps);
      Runs.FirstStep(s, steps);
      var s1 := Next(s, steps[0]);
      RunAccounts(s1, steps[1..], h, birth);
      if IsBorn(s, h, birth) {
        StaysBorn(s, steps, h, birth);
      }
      if IsBorn(s1, h, birth) {
        StepAccounts(s, steps[0], h);
      }
    }
  }

  /** After any run from the start an entry has one lock for each packet that holds it
      and one for each time it was met since its birth. */
  lemma LocksOverRuns(max: nat, nodeCount: nat, steps: seq<Step>, h: Handle)
    requires Runs.Runs(Runs.Initial(max, nodeCount), steps) && h in Runs.Final(Runs.Initial(max, nodeCount), steps).entries
    ensures var s := Runs.Final(Runs.Initial(max, nodeCount), steps);
      && h in s.history.born
      && s.entries[h].locks == |Holders(s.packets, h)| + Meetings(Runs.Initial(max, nodeCount), steps, h, s.history.born[h])
  {
    hide Inv, Safe, Runs.Runs, Runs.Final, Meetings;
    var s := Runs.Final(Runs.Initial(max, nodeCount), steps);
    Runs.LocksCoverHolders(s, h);
    Runs.PastOfEntries(s);
    RunAccounts(Runs.Initial(max, nodeCount), steps, h, s.history.born[h]);
  }

  /** It was met at some moment of the run, in the state it had then. */
  ghost predicate MetAt(s: State, steps: seq<Step>, h: Handle, birth: nat, i: nat)
    requires Safe(s) && Runs.Runs(s, steps) && i < |steps|
  {
    Runs.RunSplits(s, steps, i);
    var s' := Runs.Final(s, steps[..i]);
    Meets(s', steps[i], h) && IsBorn(s', h, birth)
  }

  lemma {:induction false} NeverMetIff(s: State, steps: seq<Step>, h: Handle, birth: nat)
    requires Safe(s) && Runs.Runs(s, steps)
    ensures Meetings(s, steps, h, birth) == 0 <==> forall i: nat | i < |steps| :: !MetAt(s, steps, h, birth, i)
    decreases |steps|
  {
    hide Inv, Safe, Next, Enabled, Runs.Runs, Runs.Final, Meets, IsBorn;
    if steps != [] {
      Runs.RunsFirst(s, steps);
      Runs.FirstStep(s, steps);
      var s1, rest := Next(s, steps[0]), steps[1..];
      NeverMetIff(s1, rest, h, birth);
      MetFirst(s, steps, h, birth);
      forall i: nat | i < |rest|
        ensures MetAt(s, steps, h, birth, i + 1) <==> MetAt(s1, rest, h, birth, i)
      {
        MetLater(s, steps, h, birth, i);
      }
      if forall i: nat | i < |steps| :: !MetAt(s, steps, h, birth, i) {
        assert forall i: nat | i < |rest| :: !MetAt(s1, rest, h, birth, i) by {
          forall i: nat | i < |rest|
            ensures !MetAt(s1, rest, h, birth, i)
          {
            assert !MetAt(s, steps, h, birth, i + 1);
          }
        }
      } else {
        var i: nat :| i < |steps| && MetAt(s, steps, h, birth, i);
        if i > 0 {
          assert MetAt(s1, rest, h, birth, i - 1);
        }
      }
    }
  }

  lemma MetFirst(s: State, steps: seq<Step>, h: Handle, birth: nat)
    requires Safe(s) && Runs.Runs(s, steps) && steps != []
    ensures MetAt(s, steps, h, birth, 0) <==> Meets(s, steps[0], h) && IsBorn(s, h, birth)
  {
    hide Inv, Safe, Next, Enabled, Runs.Runs, Runs.Final, Meets, IsBorn;
    assert steps[..0] == [];
    Runs.RunsNone(s);
  }

  lemma MetLater(s: State, steps: seq<Step>, h: Handle, birth: nat, i: nat)
    requires Safe(s) && Runs.Runs(s, steps) && i + 1 < |steps| && Enabled(s, steps[0]) && Runs.Runs(Next(s, steps[0]), steps[1..])
    ensures MetAt(s, steps, h, birth, i + 1) <==> MetAt(Next(s, steps[0]), steps[1..], h, birth, i)
  {
    hide Inv, Safe, Next, Enabled, Runs.Runs, Runs.Final, Meets, IsBorn;
    var front, rest := steps[..i + 1], steps[1..];
    assert front[0] == steps[0] && front[1..] == rest[..i] && steps[i + 1] == rest[i];
    Runs.RunSplits(s, steps, i + 1);
    Runs.FirstStep(s, front);
  }

  /** So locks never fall below holders, and are exactly the holders if and only if no
      strategy node ever met the entry while it was pending. */
  lemma LocksEqualHoldersIff(max: nat, nodeCount: nat, steps: seq<Step>, h: Handle)
    requires Runs.Runs(Runs.Initial(max, nodeCount), steps) && h in Runs.Final(Runs.Initial(max, nodeCount), steps).entries
    ensures var s0 := Runs.Initial(max, nodeCount); var s := Runs.Final(s0, steps);
      && h in s.history.born
      && s.entries[h].locks >= |Holders(s.packets, h)|
      && (s.entries[h].locks == |Holders(s.packets, h)| <==>
            forall i: nat | i < |steps| :: !MetAt(s0, steps, h, s.history.born[h], i))
  {
    hide Inv, Safe, Runs.Runs, Runs.Final, Meetings, MetAt;
    var s0 := Runs.Initial(max, nodeCount);
    LocksOverRuns(max, nodeCount, steps, h);
    NeverMetIff(s0, steps, h, Runs.Final(s0, steps).history.born[h]);
  }
}
