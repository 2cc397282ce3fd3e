/** What the order of the LRU list means over any run from the start: its nodes stand in
    the order of their last use, so what is displaced is what was used longest ago. */
module Recency {
  import opened Lists
  import opened Table
  import opened Pcs
  import opened PcsInvariant
  import opened Graph
  import opened Life
  import Runs

  // ---------------------------------------------------------------------- the list in a step

  /** The node in which the step caches data, or from which it answers. */
  function Used(s: State, step: Step): Option<nat> {
    if (step.HitCs? || step.DataFwd?) && step.b in s.packets && (s.packets[step.b].stage.AtHitCs? || s.packets[step.b].stage.AtDataFwd?)
    then UsedAt(s, step, s.packets[step.b].stage.ticket.h)
    else None
  }

  function UsedAt(s: State, step: Step, h: Handle): Option<nat> {
    if Caches(s, step, h) || (Replies(s, step, h) && !s.entries[h].deleted) then Some(s.entries[h].node) else None
  }

  ghost predicate Precedes(q: seq<nat>, m: nat, n: nat) {
    exists i, j :: 0 <= i < j < |q| && q[i] == m && q[j] == n
  }

  /** Nodes go, and the others stay in order. */
  ghost predicate Thins(a: seq<nat>, b: seq<nat>) {
    (forall i, j | 0 <= i < j < |b| :: Precedes(a, b[i], b[j])) && forall x | x in b :: x in a
  }

  /** The node in use comes first. */
  ghost predicate Moves(a: seq<nat>, used: Option<nat>, b: seq<nat>) {
    if used.None? then Thins(a, b)
    else b == [] || (b[0] == used.value && b[0] !in b[1..] && Thins(a, b[1..]))
  }

  lemma ThinsSelf(q: seq<nat>, k: nat)
    requires k <= |q|
    ensures Thins(q, q[..k]) && Thins(q, q)
  {
    forall i, j | 0 <= i < j < |q|
      ensures Precedes(q, q[i], q[j])
    {
    }
  }

  lemma {:induction false} ThinsWithout(q: seq<nat>, n: nat)
    ensures Thins(q, Without(q, n))
    ensures forall x | x in Without(q, n) :: x in q
  {
    if q != [] {
      var r := Without(q, n);
      ThinsWithout(q[1..], n);
      forall i, j | 0 <= i < j < |r|
        ensures Precedes(q, r[i], r[j])
      {
        WithoutOrder(q, n, i, j);
      }
    }
  }

  /** Where two nodes of the shorter list were. */
  lemma {:induction false} WithoutOrder(q: seq<nat>, n: nat, i: nat, j: nat)
    requires i < j < |Without(q, n)|
    ensures exists k, l :: 0 <= k < l < |q| && q[k] == Without(q, n)[i] && q[l] == Without(q, n)[j]
  {
    if q[0] == n {
      assert q[i + 1] == Without(q, n)[i] && q[j + 1] == Without(q, n)[j];
    } else if i > 0 {
      WithoutOrder(q[1..], n, i - 1, j - 1);
      var k, l :| 0 <= k < l < |q[1..]| && q[1..][k] == Without(q[1..], n)[i - 1] && q[1..][l] == Without(q[1..], n)[j - 1];
      assert q[k + 1] == Without(q, n)[i] && q[l + 1] == Without(q, n)[j];
    } else {
      var l := WithoutFrom(q[1..], n, j - 1);
      assert q[0] == Without(q, n)[0] && q[l + 1] == Without(q, n)[j];
    }
  }

  lemma {:induction false} WithoutFrom(q: seq<nat>, n: nat, j: nat) returns (l: nat)
    requires j < |Without(q, n)|
    ensures l < |q| && q[l] == Without(q, n)[j]
  {
    if q[0] == n {
      l := j + 1;
    } else if j == 0 {
      l := 0;
    } else {
      l := WithoutFrom(q[1..], n, j - 1);
      l := l + 1;
    }
  }

  lemma {:induction false} WithoutLast(q: seq<nat>)
    requires q != [] && NoDuplicates(q)
    ensures Without(q, q[|q| - 1]) == q[..|q| - 1]
  {
    if |q| > 1 {
      TailDistinct(q);
      WithoutLast(q[1..]);
      assert q[0] != q[|q| - 1];
      assert q[..|q| - 1] == [q[0]] + q[1..][..|q| - 2];
    }
  }

  // --------------------------------------------------------------------------- operations

  /** At most this node leaves the list. */
  predicate Drops(a: seq<nat>, n: nat, b: seq<nat>) {
    b == a || b == Without(a, n)
  }

  lemma ReleaseList(s: State, h: Handle)
    requires Deletable(s, h) && s.entries[h].locks > 0
    ensures RemoveLock(s, h).lru == s.lru && PitDelete(s, h).lru == s.lru
  {
  }

  lemma DeleteList(s: State, h: Handle)
    requires Deletable(s, h) && s.entries[h].locks > 0
    ensures Drops(s.lru, s.entries[h].node, Delete(s, h).lru)
  {
    hide Without;
  }

  lemma EvictList(s: State)
    requires Evictable(s) && NoDuplicates(s.lru)
    ensures Evict(s).lru == if |s.lru| > s.max then s.lru[..|s.lru| - 1] else s.lru
  {
    if |s.lru| > s.max {
      WithoutLast(s.lru);
    }
    hide Without;
  }

  /** The list when data is cached. */
  function WithNew(q: seq<nat>, n: nat, max: nat): seq<nat> {
    if |q| >= max then ([n] + q)[..|q|] else [n] + q
  }

  lemma CacheList(s: State, h: Handle, buf: nat, rxFace: nat, expire: int)
    requires h in s.entries && NoDuplicates(s.lru) && s.entries[h].node !in s.lru
    requires PitToCs.requires(s, h, rxFace) && Cached(PitToCs(s, h, rxFace), h)
    ensures StoreBuffer(PitToCs(s, h, rxFace), h, buf, expire).lru == WithNew(s.lru, s.entries[h].node, s.max)
  {
    hide Evict, Evictable, NoDuplicates;
    var s1 := Convert(s, h, None, rxFace, s.nodes[s.entries[h].node].data.expire);
    ConsDistinct(s.entries[h].node, s.lru);
    EvictList(s1);
  }

  lemma Distinct(s: State)
    requires Ordered(s)
    ensures NoDuplicates(s.lru)
    ensures forall h | h in s.entries && !s.entries[h].isCs :: s.entries[h].node !in s.lru
  {
    hide Owned, Faced, Ticketed, NoDuplicates;
  }

  // -------------------------------------------------------------------------------- steps

  lemma PlainMoves(s: State, step: Step)
    requires Safe(s) && Enabled(s, step) && (step.Arrive? || step.InterestLookup? || step.DataLookup?)
    ensures Next(s, step).lru == s.lru
  {
    hide Inv, Matches;
  }

  lemma StrategyMoves(s: State, step: Step)
    requires Safe(s) && Enabled(s, step) && step.Strategy?
    ensures Next(s, step).lru == s.lru
  {
    hide Inv, Matches;
  }

  lemma HitPitMoves(s: State, step: Step)
    requires Safe(s) && Enabled(s, step) && step.HitPit?
    ensures Drops(s.lru, s.packets[step.b].stage.ticket.node, Next(s, step).lru)
  {
    hide Ordered, Locked, Counted, RemoveLock, Delete, Without;
    var s0 := Take(s, step.b);
    var p := s.packets[step.b];
    var t := p.stage.ticket;
    TakeTicketKeeps(s, step.b);
    RemoveLockKeeps(s0, t.h);
    EntryFacts(s0, t.h);
    ReleaseList(s0, t.h);
    DeleteList(s0, t.h);
    if !s.entries[t.h].isCs {
      AddFaceKeeps(s0, Some(t.h), t.node, p.face);
      var s1 := AddFace(s0, t.node, p.face);
      RemoveLockKeeps(s1, t.h);
      ReleaseList(s1, t.h);
    }
  }

  lemma HitCsMoves(s: State, step: Step)
    requires Safe(s) && Enabled(s, step) && step.HitCs?
    ensures match Used(s, step)
      case Some(n) => Next(s, step).lru == [n] + Without(s.lru, n) && n in s.lru
      case None => Drops(s.lru, s.packets[step.b].stage.ticket.node, Next(s, step).lru)
  {
    hide Ordered, Locked, Counted, RemoveLock, Delete, Without;
    var s0 := Take(s, step.b);
    var t := s.packets[step.b].stage.ticket;
    TakeTicketKeeps(s, step.b);
    RemoveLockKeeps(s0, t.h);
    EntryFacts(s0, t.h);
    ReleaseList(s0, t.h);
    DeleteList(s0, t.h);
    var s1 := if s.entries[t.h].deleted then s0 else Touch(s0, t.node);
    if !s.entries[t.h].deleted {
      TouchKeeps(s0, Some(t.h), t.node);
    }
    var s2 := if step.copy.Some? then SwapBuffer(s1, t.node, step.copy.value) else s1;
    if step.copy.Some? {
      SwapKeeps(s1, Some(t.h), t.node, step.copy.value);
    }
    RemoveLockKeeps(s2, t.h);
    ReleaseList(s2, t.h);
  }

  lemma DataFwdMoves(s: State, step: Step)
    requires Safe(s) && Enabled(s, step) && step.DataFwd?
    ensures match Used(s, step)
      case Some(n) => Next(s, step).lru == WithNew(s.lru, n, s.max) && n !in s.lru
      case None => Drops(s.lru, s.packets[step.b].stage.ticket.node, Next(s, step).lru)
  {
    hide Ordered, Locked, Counted, RemoveLock, Delete, PitDelete, PitToCs, StoreBuffer, Without, NoDuplicates;
    var s0 := Take(s, step.b);
    var p := s.packets[step.b];
    var t := p.stage.ticket;
    TakeTicketKeeps(s, step.b);
    RemoveLockKeeps(s0, t.h);
    EntryFacts(s0, t.h);
    ReleaseList(s0, t.h);
    DeleteList(s0, t.h);
    Distinct(s0);
    if !s.entries[t.h].isCs && !s.entries[t.h].deleted {
      NotBuffered(s, step.b);
      var expire := step.now + ClampLifetime(step.lifetime);
      CacheKeeps(s0, t.h, step.b, p.face, expire);
      CacheList(s0, t.h, step.b, p.face, expire);
      var s1 := StoreBuffer(PitToCs(s0, t.h, p.face), t.h, step.b, expire);
      RemoveLockKeeps(s1, t.h);
      ReleaseList(s1, t.h);
    }
  }

  lemma DropsMoves(a: seq<nat>, n: nat, b: seq<nat>)
    requires Drops(a, n, b)
    ensures Moves(a, None, b)
  {
    hide Without, Thins;
    ThinsSelf(a, |a|);
    ThinsWithout(a, n);
  }

  lemma FrontMoves(a: seq<nat>, n: nat)
    requires NoDuplicates(a) && n in a
    ensures Moves(a, Some(n), [n] + Without(a, n))
  {
    hide Without, Thins, NoDuplicates;
    ThinsWithout(a, n);
    WithoutMembers(a, n);
    assert ([n] + Without(a, n))[1..] == Without(a, n);
  }

  lemma NewMoves(a: seq<nat>, n: nat, max: nat)
    requires n !in a
    ensures Moves(a, Some(n), WithNew(a, n, max))
  {
    hide Thins;
    var b := WithNew(a, n, max);
    if b != [] {
      ThinsSelf(a, |b| - 1);
      assert b[1..] == a[..|b| - 1];
    }
  }

  lemma StepMoves(s: State, step: Step)
    requires Safe(s) && Enabled(s, step)
    ensures Moves(s.lru, Used(s, step), Next(s, step).lru)
  {
    hide Locked, Paired, Owned, Faced, Ticketed, NoDuplicates, Next, Answers, Places, UsedAt, Moves, Without, Drops, WithNew;
    if step.HitPit? {
      HitPitMoves(s, step);
      DropsMoves(s.lru, s.packets[step.b].stage.ticket.node, Next(s, step).lru);
    } else if step.HitCs? || step.DataFwd? {
      if step.HitCs? {
        HitCsMoves(s, step);
      } else {
        DataFwdMoves(s, step);
      }
      match Used(s, step) {
        case Some(n) =>
          if step.HitCs? {
            FrontMoves(s.lru, n);
          } else {
            NewMoves(s.lru, n, s.max);
          }
        case None => DropsMoves(s.lru, s.packets[step.b].stage.ticket.node, Next(s, step).lru);
      }
    } else {
      if step.Strategy? {
        StrategyMoves(s, step);
      } else {
        PlainMoves(s, step);
      }
      SameMoves(s.lru);
    }
  }

  lemma SameMoves(a: seq<nat>)
    ensures Moves(a, None, a)
  {
    hide Thins;
    ThinsSelf(a, |a|);
  }

  // --------------------------------------------------------------------------------- runs

  /** When a node was last used in a run, counting steps from one; zero if never. */
  ghost function LastUse(s: State, steps: seq<Step>, n: nat): (k: nat)
    requires Safe(s) && Runs.Runs(s, steps)
    ensures k <= |steps|
    decreases |steps|
  {
    if steps == [] then 0
    else
      Runs.LastStep(s, steps);
      var front, last := steps[..|steps| - 1], steps[|steps| - 1];
      if Used(Runs.Final(s, front), last) == Some(n) then |steps| else LastUse(s, front, n)
  }

  /** All have been used, and later use comes first. */
  ghost predicate ByUse(s: State, steps: seq<Step>, q: seq<nat>)
    requires Safe(s) && Runs.Runs(s, steps)
  {
    && (forall x | x in q :: LastUse(s, steps, x) > 0)
    && (forall i, j | 0 <= i < j < |q| :: LastUse(s, steps, q[j]) < LastUse(s, steps, q[i]))
  }

  lemma ThinsByUse(s: State, steps: seq<Step>, a: seq<nat>, b: seq<nat>)
    requires Safe(s) && Runs.Runs(s, steps) && ByUse(s, steps, a) && Thins(a, b)
    ensures ByUse(s, steps, b)
  {
    hide Safe, Runs.Runs, LastUse;
    forall i, j | 0 <= i < j < |b|
      ensures LastUse(s, steps, b[j]) < LastUse(s, steps, b[i])
    {
      assert Precedes(a, b[i], b[j]);
    }
  }

  lemma UseIs(s: State, steps: seq<Step>, n: nat)
    requires Safe(s) && Runs.Runs(s, steps) && steps != [] && Runs.Runs(s, steps[..|steps| - 1])
    ensures var front, last := steps[..|steps| - 1], steps[|steps| - 1];
      LastUse(s, steps, n) == if Used(Runs.Final(s, front), last) == Some(n) then |steps| else LastUse(s, front, n)
  {
    hide Safe, Runs.Runs, Runs.Final, Used;
  }

  /** A step that uses none of the nodes. */
  lemma OthersByUse(s: State, steps: seq<Step>, q: seq<nat>)
    requires Safe(s) && Runs.Runs(s, steps) && steps != [] && Runs.Runs(s, steps[..|steps| - 1]) && ByUse(s, steps[..|steps| - 1], q)
    requires var used := Used(Runs.Final(s, steps[..|steps| - 1]), steps[|steps| - 1]); used.None? || used.value !in q
    ensures ByUse(s, steps, q)
  {
    hide Safe, Runs.Runs, Runs.Final, LastUse, Used;
    forall x | x in q
      ensures LastUse(s, steps, x) == LastUse(s, steps[..|steps| - 1], x)
    {
      UseIs(s, steps, x);
    }
  }

  /** A step that uses another. */
  lemma NewestByUse(s: State, steps: seq<Step>, n: nat, q: seq<nat>)
    requires Safe(s) && Runs.Runs(s, steps) && steps != [] && Runs.Runs(s, steps[..|steps| - 1]) && ByUse(s, steps, q)
    requires Used(Runs.Final(s, steps[..|steps| - 1]), steps[|steps| - 1]) == Some(n) && n !in q
    ensures ByUse(s, steps, [n] + q)
  {
    hide Safe, Runs.Runs, Runs.Final, LastUse, Used;
    UseIs(s, steps, n);
    var b := [n] + q;
    forall x | x in q
      ensures LastUse(s, steps, x) < |steps|
    {
      UseIs(s, steps, x);
    }
    forall i, j | 0 <= i < j < |b|
      ensures LastUse(s, steps, b[j]) < LastUse(s, steps, b[i])
    {
      assert b[j] == q[j - 1] && (i > 0 ==> b[i] == q[i - 1]);
    }
  }

  lemma MovesByUse(s: State, steps: seq<Step>, a: seq<nat>, b: seq<nat>)
    requires Safe(s) && Runs.Runs(s, steps) && steps != [] && Runs.Runs(s, steps[..|steps| - 1])
    requires ByUse(s, steps[..|steps| - 1], a)
    requires Moves(a, Used(Runs.Final(s, steps[..|steps| - 1]), steps[|steps| - 1]), b)
    ensures ByUse(s, steps, b)
  {
    hide Safe, Runs.Runs, Runs.Final, ByUse, Used, Thins;
    var front := steps[..|steps| - 1];
    var used := Used(Runs.Final(s, front), steps[|steps| - 1]);
    if used.None? {
      ThinsByUse(s, front, a, b);
      OthersByUse(s, steps, b);
    } else if b == [] {
      NoneByUse(s, steps);
    } else {
      ThinsByUse(s, front, a, b[1..]);
      OthersByUse(s, steps, b[1..]);
      NewestByUse(s, steps, b[0], b[1..]);
      assert b == [b[0]] + b[1..];
    }
  }

  lemma {:induction false} RunByUse(s: State, steps: seq<Step>)
    requires Safe(s) && Runs.Runs(s, steps) && s.lru == []
    ensures ByUse(s, steps, Runs.Final(s, steps).lru)
    decreases |steps|
  {
    hide Inv, Safe, Next, Enabled, Runs.Runs, Runs.Final, ByUse, Moves, Used;
    if steps == [] {
      Runs.RunsNone(s);
      NoneByUse(s, steps);
    } else {
      Runs.LastStep(s, steps);
      var front, last := steps[..|steps| - 1], steps[|steps| - 1];
      RunByUse(s, front);
      StepMoves(Runs.Final(s, front), last);
      MovesByUse(s, steps, Runs.Final(s, front).lru, Runs.Final(s, steps).lru);
    }
  }

  lemma NoneByUse(s: State, steps: seq<Step>)
    requires Safe(s) && Runs.Runs(s, steps)
    ensures ByUse(s, steps, [])
  {
    hide Safe, Runs.Runs;
  }

  // ------------------------------------------------------------------------------ results

  ghost predicate UsedAtStep(s: State, steps: seq<Step>, n: nat, i: nat)
    requires Safe(s) && Runs.Runs(s, steps) && i < |steps|
  {
    Used(Runs.Moment(s, steps, i), steps[i]) == Some(n)
  }

  /** Step `i` of the run is the last that cached data in this node or answered from it. */
  ghost predicate IsLastUse(s: State, steps: seq<Step>, n: nat, i: nat)
    requires Safe(s) && Runs.Runs(s, steps)
  {
    i < |steps| && UsedAtStep(s, steps, n, i) && forall k: nat | i < k < |steps| :: !UsedAtStep(s, steps, n, k)
  }

  lemma {:induction false} LastUseIs(s: State, steps: seq<Step>, n: nat)
    requires Safe(s) && Runs.Runs(s, steps)
    ensures forall i: nat :: IsLastUse(s, steps, n, i) <==> i + 1 == LastUse(s, steps, n)
    decreases |steps|
  {
    hide Inv, Safe, Next, Enabled, Runs.Runs, Runs.Final, Used;
    if steps != [] {
      Runs.LastStep(s, steps);
      var k := |steps| - 1;
      var front := steps[..k];
      LastUseIs(s, front, n);
      UseIs(s, steps, n);
      Runs.MomentOfFront(s, steps, k, k);
      forall i: nat | i < k
        ensures UsedAtStep(s, front, n, i) <==> UsedAtStep(s, steps, n, i)
      {
        Runs.MomentOfFront(s, steps, k, i);
      }
      forall i: nat
        ensures IsLastUse(s, steps, n, i) <==> i + 1 == LastUse(s, steps, n)
      {
        assert i < k && !UsedAtStep(s, steps, n, k) ==> (IsLastUse(s, steps, n, i) <==> IsLastUse(s, front, n, i));
      }
    }
  }

  /** After any run from the start every node on the list has been used, and those used
      later come first. */
  lemma ListedByUse(max: nat, nodeCount: nat, steps: seq<Step>)
    requires Runs.Runs(Runs.Initial(max, nodeCount), steps)
    ensures var s0 := Runs.Initial(max, nodeCount); var q := Runs.Final(s0, steps).lru;
      && (forall n | n in q :: exists i: nat :: IsLastUse(s0, steps, n, i))
      && (forall x, y, i: nat, j: nat | 0 <= x < y < |q| && IsLastUse(s0, steps, q[x], i) && IsLastUse(s0, steps, q[y], j) :: j < i)
  {
    hide Inv, Safe, Runs.Runs, Runs.Final, LastUse, IsLastUse;
    var s0 := Runs.Initial(max, nodeCount);
    var q := Runs.Final(s0, steps).lru;
    RunByUse(s0, steps);
    forall n | n in q
      ensures forall i: nat :: IsLastUse(s0, steps, n, i) <==> i + 1 == LastUse(s0, steps, n)
      ensures exists i: nat :: IsLastUse(s0, steps, n, i)
    {
      LastUseIs(s0, steps, n);
      assert IsLastUse(s0, steps, n, LastUse(s0, steps, n) - 1);
    }
  }

  lemma OldestLast(s: State, steps: seq<Step>, q: seq<nat>, m: nat)
    requires Safe(s) && Runs.Runs(s, steps) && ByUse(s, steps, q) && q != [] && m in q[..|q| - 1]
    ensures LastUse(s, steps, q[|q| - 1]) < LastUse(s, steps, m)
  {
    hide Safe, Runs.Runs, LastUse;
  }

  /** When data is cached and a node leaves the list, or is not let in, the cache was full,
      and every node on the list has been used later than that one. */
  lemma DisplacesOldest(max: nat, nodeCount: nat, steps: seq<Step>, v: nat, m: nat, i: nat, j: nat)
    requires steps != [] && Runs.Runs(Runs.Initial(max, nodeCount), steps)
    requires var s0, k := Runs.Initial(max, nodeCount), |steps| - 1;
      var s, s', last := Runs.Moment(s0, steps, k), Runs.Final(s0, steps), steps[k];
      && last.DataFwd? && Used(s, last).Some? && (v in s.lru || v == Used(s, last).value) && v !in s'.lru && m in s'.lru
      && IsLastUse(s0, steps, v, j) && IsLastUse(s0, steps, m, i)
    ensures |Runs.Moment(Runs.Initial(max, nodeCount), steps, |steps| - 1).lru| == max
    ensures j < i
  {
    hide Inv, Safe, Next, Enabled, Runs.Runs, Runs.Final, LastUse, IsLastUse, Used, ByUse, Moves, Without;
    var s0, k := Runs.Initial(max, nodeCount), |steps| - 1;
    Runs.LastStep(s0, steps);
    var s, last := Runs.Final(s0, steps[..k]), steps[k];
    var n := Used(s, last).value;
    DataFwdMoves(s, last);
    RunByUse(s0, steps[..k]);
    NewMoves(s.lru, n, |s.lru| + 1);
    MovesByUse(s0, steps, s.lru, [n] + s.lru);
    Limit(s0, steps[..k]);
    LastUseIs(s0, steps, v);
    LastUseIs(s0, steps, m);
    var q := [n] + s.lru;
    LastOut(q, v);
    OldestLast(s0, steps, q, m);
  }

  lemma LastOut(q: seq<nat>, v: nat)
    requires v in q
    ensures v in q[..|q| - 1] || v == q[|q| - 1]
  {
  }

  lemma Limit(s: State, steps: seq<Step>)
    requires Safe(s) && Runs.Runs(s, steps)
    ensures Runs.Final(s, steps).max == s.max && |Runs.Final(s, steps).lru| <= s.max
  {
    hide Inv, Runs.Runs;
  }
}
