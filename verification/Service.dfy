/** What the forwarder does for those who ask, over any run from the start: a pending
    interest lists exactly the faces that asked for it, and a cached packet answers
    exactly until the end of its lifetime. */
module Service {
  import opened Lists
  import opened Table
  import opened Pcs
  import opened PcsInvariant
  import opened Graph
  import opened Life
  import opened Locks
  import Ownership
  import Runs
  import HashTable

  // ------------------------------------------------------------------- entries in a step

  /** An entry is new, or it was there before. */
  lemma NewOrOld(s: State, step: Step, h: Handle)
    requires Safe(s) && Enabled(s, step) && h in Next(s, step).entries
    ensures var s' := Next(s, step);
      && h in s'.history.born
      && if Installs(s, step, h) then h !in s.entries && s'.history.born[h] == s.history.clock == s'.history.clock - 1
         else IsBorn(s, h, s'.history.born[h])
  {
    hide Inv, Next, Matches;
    Runs.PastOfEntries(s);
    Runs.PastOfEntries(Next(s, step));
    if step.Strategy? {
      StrategyIs(s, step);
    } else {
      StepKeepsPast(s, step);
    }
  }

  /** What is left of the node of an entry that stays, with what the step writes. */
  function NodeThen(s: State, step: Step, h: Handle): Node
    requires Known(s, h)
  {
    var n, d := NodeOf(s, h), NodeOf(s, h).data;
    if Joins(s, step, h) && d.Pit? && s.packets[step.b].face !in d.faces then n.(data := d.(faces := d.faces + [s.packets[step.b].face]))
    else if Replies(s, step, h) && d.Cs? && step.copy.Some? then n.(data := d.(buf := step.copy))
    else if Caches(s, step, h) then n.(data := Cs(Some(step.b), s.packets[step.b].face, Due(step)))
    else n
  }

  lemma Pairs(s: State)
    requires Safe(s)
    ensures forall h | h in s.entries :: Known(s, h) && NodeOf(s, h).at == h && NodeOf(s, h).data.Cs? == s.entries[h].isCs
  {
    hide Locked, Owned, Faced, Listed, Ticketed;
  }

  lemma NodeAfter(s: State, step: Step, h: Handle)
    requires Safe(s) && Enabled(s, step) && h in s.entries && h in Next(s, step).entries
    ensures Known(s, h) && Known(Next(s, step), h) && NodeOf(Next(s, step), h) == NodeThen(s, step, h)
  {
    hide Inv, Next, Settled;
    StepRewrites(s, step);
    StepOutcome(s, step);
    SameNode(s, step, h);
    Pairs(s);
    Pairs(Next(s, step));
  }

  lemma SameNode(s: State, step: Step, h: Handle)
    requires Safe(s) && Enabled(s, step) && h in s.entries && h in Next(s, step).entries
    ensures Bare(Next(s, step).entries[h]) == Bare(s.entries[h]) && Next(s, step).entries[h].node == s.entries[h].node
    ensures Next(s, step).entries[h].isCs <==> s.entries[h].isCs || Caches(s, step, h)
  {
    hide Inv, Next, Ends;
    StepOutcome(s, step);
    assert Bare(Next(s, step).entries[h]).node == Bare(s.entries[h]).node;
  }

  /** A new entry is that of the interest. */
  lemma NewNode(s: State, step: Step, h: Handle)
    requires Safe(s) && Enabled(s, step) && Installs(s, step, h)
    ensures var s', p := Next(s, step), s.packets[step.b];
      && Known(s', h) && NodeOf(s', h) == Node(h, p.name, Pit([p.face], step.bucket, step.expire))
      && Bare(s'.entries[h]) == NewEntry(step.node, p.hash, step.dpo, step.vft)
      && !s'.entries[h].isCs && !s'.entries[h].deleted && IsBorn(s', h, s.history.clock)
  {
    hide Inv, Matches, Take;
    Locks.TakeHistory(s, step.b);
  }

  // ------------------------------------------------------------------------ who asked

  /** The step's interest asks for what this entry stands for: it is installed, or comes
      in time to the pending entry and has its name. */
  ghost predicate Asks(s: State, step: Step, h: Handle, birth: nat) {
    (Installs(s, step, h) && s.history.clock == birth) || (Joins(s, step, h) && IsBorn(s, h, birth))
  }

  /** The face its packet came from. */
  function Face(s: State, step: Step): nat {
    if step.b in s.packets then s.packets[step.b].face else 0
  }

  /** At step `i` of the run an interest from this face asks. */
  ghost predicate AsksAt(s: State, steps: seq<Step>, h: Handle, birth: nat, face: nat, i: nat)
    requires Safe(s) && Runs.Runs(s, steps) && i < |steps|
  {
    var s' := Runs.Moment(s, steps, i);
    Asks(s', steps[i], h, birth) && Face(s', steps[i]) == face
  }

  /** The faces of all that asked, one after another. */
  ghost function Askers(s: State, steps: seq<Step>, h: Handle, birth: nat): seq<nat>
    requires Safe(s) && Runs.Runs(s, steps)
    decreases |steps|
  {
    if steps == [] then []
    else
      Runs.LastStep(s, steps);
      var front, last := steps[..|steps| - 1], steps[|steps| - 1];
      var s' := Runs.Final(s, front);
      Askers(s, front, h, birth) + if Asks(s', last, h, birth) then [Face(s', last)] else []
  }

  /** Each where it comes first. */
  function Firsts(q: seq<nat>): (r: seq<nat>)
    ensures NoDuplicates(r) && forall x :: x in r <==> x in q
  {
    if q == [] then []
    else
      var front, last := q[..|q| - 1], q[|q| - 1];
      var r := Firsts(front);
      assert q == front + [last];
      if last in front then r else r + [last]
  }

  lemma FirstsNext(q: seq<nat>, x: nat)
    ensures Firsts(q + [x]) == Record(Firsts(q), x)
  {
    assert (q + [x])[..|q|] == q;
  }

  lemma ClockRises(s: State, step: Step)
    requires Safe(s) && Enabled(s, step)
    ensures s.history.clock <= Next(s, step).history.clock
  {
    hide Inv, Next, Enabled;
    Runs.EvolvesStep(s, step);
  }

  /** Nobody asks before the entry is born. */
  lemma {:induction false} NotAskedYet(s: State, steps: seq<Step>, h: Handle, birth: nat)
    requires Safe(s) && Runs.Runs(s, steps) && Runs.Final(s, steps).history.clock <= birth
    ensures Askers(s, steps, h, birth) == []
    decreases |steps|
  {
    hide Inv, Safe, Next, Enabled, Runs.Runs, Runs.Final, Installs, Joins;
    if steps != [] {
      Runs.LastStep(s, steps);
      var front, last := steps[..|steps| - 1], steps[|steps| - 1];
      var s' := Runs.Final(s, front);
      ClockRises(s', last);
      NotAskedYet(s, front, h, birth);
      Runs.PastOfEntries(s');
      if Installs(s', last, h) {
        InstallTicks(s', last, h);
      }
    }
  }

  lemma InstallTicks(s: State, step: Step, h: Handle)
    requires Safe(s) && Enabled(s, step) && Installs(s, step, h)
    ensures Next(s, step).history.clock == s.history.clock + 1
  {
    hide Inv, Next, Matches;
    StrategyIs(s, step);
  }

  /** The faces an entry lists while it is pending. */
  function FacesOf(s: State, h: Handle): seq<nat> {
    if Known(s, h) && NodeOf(s, h).data.Pit? then NodeOf(s, h).data.faces else []
  }

  lemma StepFaces(s: State, step: Step, h: Handle)
    requires Safe(s) && Enabled(s, step) && h in Next(s, step).entries && !Next(s, step).entries[h].isCs
    ensures Installs(s, step, h) ==> FacesOf(Next(s, step), h) == [Face(s, step)]
    ensures !Installs(s, step, h) ==>
      && h in s.entries && !s.entries[h].isCs
      && FacesOf(Next(s, step), h) ==
           if Joins(s, step, h) then Record(FacesOf(s, h), Face(s, step)) else FacesOf(s, h)
  {
    hide Inv, Next, Enabled;
    NewOrOld(s, step, h);
    if Installs(s, step, h) {
      NewNode(s, step, h);
    } else {
      NodeAfter(s, step, h);
      SameNode(s, step, h);
      Pairs(s);
    }
  }

  lemma {:induction false} ListedAsAsked(s: State, steps: seq<Step>, h: Handle, birth: nat)
    requires Safe(s) && Runs.Runs(s, steps) && s.entries == map[]
    requires var s' := Runs.Final(s, steps); IsBorn(s', h, birth) && !s'.entries[h].isCs
    ensures FacesOf(Runs.Final(s, steps), h) == Firsts(Askers(s, steps, h, birth))
    decreases |steps|
  {
    hide Inv, Safe, Next, Enabled, Runs.Runs, Runs.Final, Installs, Joins, FacesOf, Face;
    if steps == [] {
      Runs.RunsNone(s);
    } else {
      Runs.LastStep(s, steps);
      var front, last := steps[..|steps| - 1], steps[|steps| - 1];
      var s' := Runs.Final(s, front);
      NewOrOld(s', last, h);
      StepFaces(s', last, h);
      if Installs(s', last, h) {
        NotAskedYet(s, front, h, birth);
        FirstsNext([], Face(s', last));
        assert Firsts([]) == [];
      } else {
        ListedAsAsked(s, front, h, birth);
        if Joins(s', last, h) {
          FirstsNext(Askers(s, front, h, birth), Face(s', last));
        } else {
          assert Askers(s, steps, h, birth) == Askers(s, front, h, birth);
        }
      }
    }
  }

  lemma {:induction false} AskersAre(s: State, steps: seq<Step>, h: Handle, birth: nat, face: nat)
    requires Safe(s) && Runs.Runs(s, steps)
    ensures face in Askers(s, steps, h, birth) <==> exists i: nat :: i < |steps| && AsksAt(s, steps, h, birth, face, i)
    decreases |steps|
  {
    hide Inv, Safe, Next, Enabled, Runs.Runs, Runs.Final, Asks, Face;
    if steps != [] {
      Runs.LastStep(s, steps);
      var k := |steps| - 1;
      var front := steps[..k];
      AskersAre(s, front, h, birth, face);
      forall i: nat | i < k
        ensures AsksAt(s, front, h, birth, face, i) <==> AsksAt(s, steps, h, birth, face, i)
      {
        Runs.MomentOfFront(s, steps, k, i);
      }
      if i: nat :| i < k && AsksAt(s, front, h, birth, face, i) {
        assert AsksAt(s, steps, h, birth, face, i);
      }
      if AsksAt(s, steps, h, birth, face, k) {
      }
      if i: nat :| i < |steps| && AsksAt(s, steps, h, birth, face, i) {
        if i < k {
          assert AsksAt(s, front, h, birth, face, i);
        }
      }
    }
  }

  /** After any run from the start a pending interest lists exactly the faces of the
      interests that asked for it since it was installed, each once. */
  lemma FacesAreAskers(max: nat, nodeCount: nat, steps: seq<Step>, h: Handle)
    requires Runs.Runs(Runs.Initial(max, nodeCount), steps)
    requires var s := Runs.Final(Runs.Initial(max, nodeCount), steps); h in s.entries && !s.entries[h].isCs
    ensures var s0 := Runs.Initial(max, nodeCount); var s := Runs.Final(s0, steps);
      && h in s.history.born
      && NoDuplicates(FacesOf(s, h))
      && forall f :: f in FacesOf(s, h) <==> exists i: nat :: i < |steps| && AsksAt(s0, steps, h, s.history.born[h], f, i)
  {
    hide Inv, Safe, Runs.Runs, Runs.Final, Askers, AsksAt, FacesOf;
    var s0 := Runs.Initial(max, nodeCount);
    var s := Runs.Final(s0, steps);
    Runs.PastOfEntries(s);
    var birth := s.history.born[h];
    ListedAsAsked(s0, steps, h, birth);
    forall f
      ensures f in FacesOf(s, h) <==> exists i: nat :: i < |steps| && AsksAt(s0, steps, h, birth, f, i)
    {
      AskersAre(s0, steps, h, birth, f);
    }
  }

  /** None leaves the list, and the order stays. */
  lemma {:induction false} FacesStay(s: State, steps: seq<Step>, h: Handle, birth: nat)
    requires Safe(s) && Runs.Runs(s, steps) && IsBorn(s, h, birth)
    requires var s' := Runs.Final(s, steps); IsBorn(s', h, birth) && !s'.entries[h].isCs
    ensures !s.entries[h].isCs && FacesOf(s, h) <= FacesOf(Runs.Final(s, steps), h)
    decreases |steps|
  {
    hide Inv, Safe, Next, Enabled, Runs.Runs, Runs.Final, Installs, Joins, FacesOf, Face;
    if steps == [] {
      Runs.RunsNone(s);
    } else {
      Runs.LastStep(s, steps);
      var front, last := steps[..|steps| - 1], steps[|steps| - 1];
      var s' := Runs.Final(s, front);
      NewOrOld(s', last, h);
      StepFaces(s', last, h);
      Runs.PastOfEntries(s);
      Runs.EvolvesRun(s, front);
      FacesStay(s, front, h, birth);
    }
  }

  // ----------------------------------------------------------- what an entry is made of

  ghost predicate InstallsAt(s: State, steps: seq<Step>, h: Handle, birth: nat, i: nat)
    requires Safe(s) && Runs.Runs(s, steps) && i < |steps|
  {
    var s' := Runs.Moment(s, steps, i);
    Installs(s', steps[i], h) && s'.history.clock == birth
  }

  ghost predicate CachesAt(s: State, steps: seq<Step>, h: Handle, birth: nat, i: nat)
    requires Safe(s) && Runs.Runs(s, steps) && i < |steps|
  {
    var s' := Runs.Moment(s, steps, i);
    steps[i].DataFwd? && Caches(s', steps[i], h) && IsBorn(s', h, birth)
  }

  /** The entry is that of the interest installed at this step. */
  ghost predicate MadeBy(s: State, steps: seq<Step>, h: Handle, i: nat)
    requires Safe(s) && Runs.Runs(s, steps) && i < |steps| && steps[i].Strategy?
  {
    var s', was := Runs.Final(s, steps), Runs.Moment(s, steps, i);
    && Known(s', h) && steps[i].b in was.packets
    && NodeOf(s', h).name == was.packets[steps[i].b].name && s'.entries[h].hash == was.packets[steps[i].b].hash
    && s'.entries[h].node == steps[i].node && s'.entries[h].dpo == steps[i].dpo && s'.entries[h].vft == steps[i].vft
    && (NodeOf(s', h).data.Pit? ==> NodeOf(s', h).data.expire == steps[i].expire)
  }

  /** It holds data that came from this face, until then. */
  predicate FilledAs(s: State, h: Handle, due: int, face: nat) {
    Known(s, h) && NodeOf(s, h).data.Cs? && NodeOf(s, h).data.expire == due && NodeOf(s, h).data.rxFace == face
  }

  ghost predicate FilledBy(s: State, steps: seq<Step>, h: Handle, i: nat)
    requires Safe(s) && Runs.Runs(s, steps) && i < |steps| && steps[i].DataFwd?
  {
    FilledAs(Runs.Final(s, steps), h, Due(steps[i]), Face(Runs.Moment(s, steps, i), steps[i]))
  }

  lemma StepMakes(s: State, step: Step, h: Handle)
    requires Safe(s) && Enabled(s, step) && h in s.entries && h in Next(s, step).entries
    ensures var s' := Next(s, step);
      && Known(s, h) && Known(s', h) && NodeOf(s', h).name == NodeOf(s, h).name && Bare(s'.entries[h]) == Bare(s.entries[h])
      && (NodeOf(s', h).data.Pit? ==> NodeOf(s, h).data.Pit? && NodeOf(s', h).data.expire == NodeOf(s, h).data.expire)
      && (NodeOf(s', h).data.Cs? ==> if Caches(s, step, h)
            then NodeOf(s, h).data.Pit? && NodeOf(s', h).data.expire == Due(step) && NodeOf(s', h).data.rxFace == Face(s, step)
            else NodeOf(s, h).data.Cs? && NodeOf(s', h).data.expire == NodeOf(s, h).data.expire
                 && NodeOf(s', h).data.rxFace == NodeOf(s, h).data.rxFace)
      && (Caches(s, step, h) ==> NodeOf(s', h).data.Cs?)
  {
    hide Inv, Next, Enabled;
    NodeAfter(s, step, h);
    SameNode(s, step, h);
    Pairs(s);
  }

  lemma {:induction false} EntriesAreMade(s: State, steps: seq<Step>, h: Handle, birth: nat)
    requires Safe(s) && Runs.Runs(s, steps) && s.entries == map[] && IsBorn(Runs.Final(s, steps), h, birth)
    ensures exists i: nat :: i < |steps| && InstallsAt(s, steps, h, birth, i) && MadeBy(s, steps, h, i)
    decreases |steps|
  {
    hide Inv, Safe, Next, Enabled, Runs.Runs, Runs.Final, Caches;
    if steps == [] {
      Runs.RunsNone(s);
    } else {
      Runs.LastStep(s, steps);
      var k := |steps| - 1;
      var front, last := steps[..k], steps[k];
      var s' := Runs.Final(s, front);
      Runs.MomentOfFront(s, steps, k, k);
      NewOrOld(s', last, h);
      if Installs(s', last, h) {
        NewNode(s', last, h);
        assert Bare(Runs.Final(s, steps).entries[h]).hash == Runs.Final(s, steps).entries[h].hash;
        assert InstallsAt(s, steps, h, birth, k) && MadeBy(s, steps, h, k);
      } else {
        EntriesAreMade(s, front, h, birth);
        var i: nat :| i < |front| && InstallsAt(s, front, h, birth, i) && MadeBy(s, front, h, i);
        Runs.MomentOfFront(s, steps, k, i);
        StepMakes(s', last, h);
        assert Bare(Runs.Final(s, steps).entries[h]).hash == Bare(s'.entries[h]).hash;
        assert InstallsAt(s, steps, h, birth, i) && MadeBy(s, steps, h, i);
      }
    }
  }

  /** It is cached exactly if some step cached it, and then as that step did. */
  ghost predicate Filled(s: State, steps: seq<Step>, h: Handle, birth: nat)
    requires Safe(s) && Runs.Runs(s, steps)
  {
    && h in Runs.Final(s, steps).entries
    && (Runs.Final(s, steps).entries[h].isCs ==> exists i: nat :: i < |steps| && CachesAt(s, steps, h, birth, i))
    && forall i: nat | i < |steps| && CachesAt(s, steps, h, birth, i) :: FilledBy(s, steps, h, i)
  }

  lemma StaysFilled(s: State, step: Step, h: Handle, due: int, face: nat)
    requires Safe(s) && Enabled(s, step) && h in s.entries && h in Next(s, step).entries && FilledAs(s, h, due, face)
    ensures FilledAs(Next(s, step), h, due, face) && !Caches(s, step, h)
  {
    hide Inv, Next, Enabled, Caches;
    StepMakes(s, step, h);
    SameNode(s, step, h);
    Pairs(s);
    Pairs(Next(s, step));
  }

  lemma GetsFilled(s: State, step: Step, h: Handle)
    requires Safe(s) && Enabled(s, step) && h in s.entries && h in Next(s, step).entries
    ensures step.DataFwd? && Caches(s, step, h) ==> FilledAs(Next(s, step), h, Due(step), Face(s, step))
    ensures Next(s, step).entries[h].isCs <==> s.entries[h].isCs || Caches(s, step, h)
    ensures Caches(s, step, h) ==> step.DataFwd?
  {
    hide Inv, Next, Enabled;
    StepMakes(s, step, h);
    SameNode(s, step, h);
  }

  lemma {:induction false} EntriesAreFilled(s: State, steps: seq<Step>, h: Handle, birth: nat)
    requires Safe(s) && Runs.Runs(s, steps) && s.entries == map[] && IsBorn(Runs.Final(s, steps), h, birth)
    ensures Filled(s, steps, h, birth)
    decreases |steps|
  {
    hide Inv, Safe, Next, Enabled, Runs.Runs, Runs.Final, Caches, FilledAs, Due, Face;
    if steps == [] {
      Runs.RunsNone(s);
    } else {
      Runs.LastStep(s, steps);
      var k := |steps| - 1;
      var front, last := steps[..k], steps[k];
      var s' := Runs.Final(s, front);
      NewOrOld(s', last, h);
      if Installs(s', last, h) {
        NewNode(s', last, h);
        NotCachedYet(s, steps, h, birth);
      } else {
        EntriesAreFilled(s, front, h, birth);
        FilledOn(s, steps, h, birth);
      }
    }
  }

  /** Nothing is cached in an entry before the step after its birth. */
  lemma NotCachedYet(s: State, steps: seq<Step>, h: Handle, birth: nat)
    requires Safe(s) && Runs.Runs(s, steps) && steps != [] && Runs.Runs(s, steps[..|steps| - 1])
    requires Runs.Final(s, steps[..|steps| - 1]).history.clock == birth
    ensures forall i: nat | i < |steps| :: !CachesAt(s, steps, h, birth, i)
  {
    hide Inv, Safe, Next, Enabled, Runs.Runs, Caches;
    var k := |steps| - 1;
    forall i: nat | i < |steps|
      ensures !CachesAt(s, steps, h, birth, i)
    {
      Runs.MomentOfFront(s, steps, k, i);
      var s' := Runs.Moment(s, steps, i);
      Runs.RunSplits(s, steps[..k], i);
      Runs.EvolvesRun(s', steps[..k][i..]);
      Runs.PastOfEntries(s');
    }
  }

  lemma FilledOn(s: State, steps: seq<Step>, h: Handle, birth: nat)
    requires Safe(s) && Runs.Runs(s, steps) && steps != [] && Runs.Runs(s, steps[..|steps| - 1])
    requires Filled(s, steps[..|steps| - 1], h, birth) && IsBorn(Runs.Final(s, steps), h, birth)
    requires IsBorn(Runs.Final(s, steps[..|steps| - 1]), h, birth)
    ensures Filled(s, steps, h, birth)
  {
    hide Inv, Safe, Next, Enabled, Runs.Runs, Runs.Final, Caches, FilledAs, Due, Face;
    Runs.LastStep(s, steps);
    var k := |steps| - 1;
    var front, last := steps[..k], steps[k];
    var s' := Runs.Final(s, front);
    Runs.MomentOfFront(s, steps, k, k);
    GetsFilled(s', last, h);
    forall i: nat | i < k
      ensures CachesAt(s, front, h, birth, i) <==> CachesAt(s, steps, h, birth, i)
      ensures Runs.Moment(s, front, i) == Runs.Moment(s, steps, i)
    {
      Runs.MomentOfFront(s, steps, k, i);
    }
    if Runs.Final(s, steps).entries[h].isCs {
      if Caches(s', last, h) {
        assert CachesAt(s, steps, h, birth, k);
      } else {
        var i: nat :| i < k && CachesAt(s, front, h, birth, i);
        assert CachesAt(s, steps, h, birth, i);
      }
    }
    forall i: nat | i < |steps| && CachesAt(s, steps, h, birth, i)
      ensures FilledBy(s, steps, h, i)
    {
      if i < k {
        assert FilledBy(s, front, h, i);
        StaysFilled(s', last, h, Due(steps[i]), Face(Runs.Moment(s, steps, i), steps[i]));
      }
    }
  }

  /** After any run from the start an entry has the name and hash of the interest that was
      installed, and expires when that says as long as it is pending.  It is cached if and
      only if a step cached data in it, and then it came from the face of that data and
      expires at the end of that data's lifetime. */
  lemma EntriesOverRuns(max: nat, nodeCount: nat, steps: seq<Step>, h: Handle)
    requires Runs.Runs(Runs.Initial(max, nodeCount), steps) && h in Runs.Final(Runs.Initial(max, nodeCount), steps).entries
    ensures var s0 := Runs.Initial(max, nodeCount); var s := Runs.Final(s0, steps);
      && h in s.history.born
      && (exists i: nat :: i < |steps| && InstallsAt(s0, steps, h, s.history.born[h], i) && MadeBy(s0, steps, h, i))
      && (s.entries[h].isCs <==> exists i: nat :: i < |steps| && CachesAt(s0, steps, h, s.history.born[h], i))
      && (forall i: nat | i < |steps| && CachesAt(s0, steps, h, s.history.born[h], i) :: FilledBy(s0, steps, h, i))
  {
    hide Inv, Safe, Runs.Runs, Runs.Final, InstallsAt, CachesAt, MadeBy;
    var s0 := Runs.Initial(max, nodeCount);
    var s := Runs.Final(s0, steps);
    Runs.PastOfEntries(s);
    Pairs(s);
    EntriesAreMade(s0, steps, h, s.history.born[h]);
    EntriesAreFilled(s0, steps, h, s.history.born[h]);
    CachesIsData(s0, steps, h, s.history.born[h]);
  }

  lemma CachesIsData(s: State, steps: seq<Step>, h: Handle, birth: nat)
    requires Safe(s) && Runs.Runs(s, steps)
    ensures forall i: nat | i < |steps| && CachesAt(s, steps, h, birth, i) :: steps[i].DataFwd?
  {
    hide Safe, Runs.Runs;
  }

  // ------------------------------------------------------------------- what packets do

  lemma HitPitLeaves(s: State, step: Step)
    requires Safe(s) && Enabled(s, step) && step.HitPit?
    ensures var p := s.packets[step.b]; var t := p.stage.ticket;
      && Known(s, t.h)
      && Next(s, step).packets ==
           if Late(s, step, t.h) then s.packets[step.b := p.(stage := AtStrategy)]
           else if InTime(s, step, t.h) && s.entries[t.h].isCs then s.packets[step.b := p.(stage := AtHitCs(t))]
           else s.packets - {step.b}
  {
    hide Ordered, Locked, Counted, RemoveLock, Delete;
    var s0 := Take(s, step.b);
    var p := s.packets[step.b];
    var t := p.stage.ticket;
    TakeTicketKeeps(s, step.b);
    RemoveLockKeeps(s0, t.h);
    EntryFacts(s0, t.h);
    Runs.RemoveLockFrame(s0, t.h);
    DeleteFrame(s0, t.h);
    if !s.entries[t.h].isCs {
      AddFaceKeeps(s0, Some(t.h), t.node, p.face);
      RemoveLockKeeps(AddFace(s0, t.node, p.face), t.h);
      Runs.RemoveLockFrame(AddFace(s0, t.node, p.face), t.h);
    }
  }

  lemma HitCsLeaves(s: State, step: Step)
    requires Safe(s) && Enabled(s, step) && step.HitCs?
    ensures var p := s.packets[step.b]; var t := p.stage.ticket;
      && Known(s, t.h)
      && Next(s, step).packets == if Late(s, step, t.h) then s.packets[step.b := p.(stage := AtStrategy)] else s.packets - {step.b}
  {
    hide Ordered, Locked, Counted, RemoveLock, Delete, Without;
    var s0 := Take(s, step.b);
    var t := s.packets[step.b].stage.ticket;
    TakeTicketKeeps(s, step.b);
    RemoveLockKeeps(s0, t.h);
    EntryFacts(s0, t.h);
    Runs.RemoveLockFrame(s0, t.h);
    DeleteFrame(s0, t.h);
    var s1 := if s.entries[t.h].deleted then s0 else Touch(s0, t.node);
    if !s.entries[t.h].deleted {
      TouchKeeps(s0, Some(t.h), t.node);
    }
    var s2 := if step.copy.Some? then SwapBuffer(s1, t.node, step.copy.value) else s1;
    if step.copy.Some? {
      SwapKeeps(s1, Some(t.h), t.node, step.copy.value);
    }
    RemoveLockKeeps(s2, t.h);
    Runs.RemoveLockFrame(s2, t.h);
  }

  /** No route, no node, or no place in the table. */
  predicate Refused(s: State, step: Step) {
    step.Strategy? && (!step.routed || |s.nodes| + 1 >= s.nodeCount || step.result.NoMem?)
  }

  /** The entry that the packet of the step holds is not the one it asks for. */
  predicate Collides(s: State, step: Step) {
    && (step.HitPit? || step.HitCs?) && step.b in s.packets
    && (s.packets[step.b].stage.AtHitPit? || s.packets[step.b].stage.AtHitCs?)
    && !Fits(s, step, s.packets[step.b].stage.ticket.h)
  }

  lemma StrategyLeaves(s: State, step: Step)
    requires Safe(s) && Enabled(s, step) && step.Strategy?
    ensures step.b in Next(s, step).packets <==> !Refused(s, step) && step.result.Exist?
  {
    hide Inv, Matches, NewPit, Lock, LockTwice;
    var s0, p := Take(s, step.b), s.packets[step.b];
    match step.result {
      case Inserted(h) =>
        Runs.NewPitPackets(s0, h, NewEntry(step.node, p.hash, step.dpo, step.vft), p.name, p.face, step.bucket, step.expire);
      case Exist(h) => BornKnown(s, None, h);
      case NoMem =>
    }
  }

  lemma LookupLeaves(s: State, step: Step)
    requires Safe(s) && Enabled(s, step) && step.InterestLookup?
    ensures step.b in Next(s, step).packets <==> step.parsed
  {
    hide Inv, Matches, Lock;
  }

  /** An interest leaves the forwarder's tables exactly if it does not parse or collides
      with another name, is refused, asks for a pending entry, old or new, or is answered. */
  lemma InterestLeavesIff(s: State, step: Step)
    requires Safe(s) && Enabled(s, step) && (step.InterestLookup? || step.Strategy? || step.HitPit? || step.HitCs?)
    ensures step.b !in Next(s, step).packets <==>
      || (step.InterestLookup? && !step.parsed)
      || Collides(s, step)
      || Refused(s, step)
      || (exists h :: Installs(s, step, h) || Joins(s, step, h))
      || (exists h :: Replies(s, step, h))
  {
    hide Inv, Next, Matches;
    if step.InterestLookup? {
      LookupLeaves(s, step);
    } else if step.Strategy? {
      StrategyLeaves(s, step);
      if !Refused(s, step) && step.result.Inserted? {
        assert Installs(s, step, step.result.h);
      }
    } else {
      var h := s.packets[step.b].stage.ticket.h;
      Holding(s, step.b);
      if step.HitPit? {
        HitPitLeaves(s, step);
        assert InTime(s, step, h) && !s.entries[h].isCs ==> Joins(s, step, h);
      } else {
        HitCsLeaves(s, step);
        assert InTime(s, step, h) ==> Replies(s, step, h);
      }
    }
  }

  lemma Holding(s: State, b: nat)
    requires Safe(s) && b in s.packets && (s.packets[b].stage.AtHitPit? || s.packets[b].stage.AtHitCs?)
    ensures var h := s.packets[b].stage.ticket.h;
      h in s.history.born && IsBorn(s, h, s.history.born[h]) && (s.packets[b].stage.AtHitCs? ==> s.entries[h].isCs)
  {
    hide Locked, Paired, Owned, Faced, Listed;
    Runs.PastOfEntries(s);
  }

  /** A packet goes on with an entry, to the graph node for its kind. */
  ghost predicate GoesOnWith(s: State, b: nat, h: Handle, isCs: bool, isData: bool) {
    && b in s.packets && s.packets[b].stage.Holds(h) && Current(s, s.packets[b].stage.ticket, s.packets[b].hash)
    && (if isData then s.packets[b].stage.AtDataFwd? else if isCs then s.packets[b].stage.AtHitCs? else s.packets[b].stage.AtHitPit?)
  }

  lemma TicketIsCurrent(s: State, b: nat)
    requires Safe(s) && b in s.packets && (s.packets[b].stage.AtHitPit? || s.packets[b].stage.AtHitCs? || s.packets[b].stage.AtDataFwd?)
    ensures Current(s, s.packets[b].stage.ticket, s.packets[b].hash)
  {
    hide Locked, Paired, Owned, Faced, Listed;
  }

  /** An interest that parses goes on with the entry found, or to the strategy if there is
      none.  Data goes on exactly if it finds a pending interest. */
  lemma LookupGoesOn(s: State, step: Step)
    requires Safe(s) && Enabled(s, step) && (step.InterestLookup? || step.DataLookup?)
    ensures var s' := Next(s, step);
      if !step.parsed || (step.DataLookup? && (step.found.None? || s.entries[step.found.value].isCs)) then step.b !in s'.packets
      else if step.found.None? then step.b in s'.packets && s'.packets[step.b].stage == AtStrategy
      else GoesOnWith(s', step.b, step.found.value, s.entries[step.found.value].isCs, step.DataLookup?)
  {
    hide Inv, Matches, Current, Lock;
    if step.b in Next(s, step).packets && step.found.Some? {
      TicketIsCurrent(Next(s, step), step.b);
    }
  }

  /** An interest that finds an entry in its way goes on with it. */
  lemma StrategyGoesOn(s: State, step: Step, h: Handle)
    requires Safe(s) && Enabled(s, step) && step.Strategy? && !Refused(s, step) && step.result == HashTable.Exist(h)
    ensures GoesOnWith(Next(s, step), step.b, h, s.entries[h].isCs, false)
  {
    hide Inv, Matches, Current, Lock, LockTwice;
    BornKnown(s, None, h);
    TicketIsCurrent(Next(s, step), step.b);
  }

  /** Data is done with after the data-fwd node. */
  lemma DataLeaves(s: State, step: Step)
    requires Safe(s) && Enabled(s, step) && step.DataFwd?
    ensures Next(s, step).packets == s.packets - {step.b}
  {
    hide Ordered, Locked, Counted, RemoveLock, Delete, PitDelete, PitToCs, StoreBuffer;
    var s0 := Take(s, step.b);
    var p := s.packets[step.b];
    var t := p.stage.ticket;
    TakeTicketKeeps(s, step.b);
    RemoveLockKeeps(s0, t.h);
    EntryFacts(s0, t.h);
    Runs.RemoveLockFrame(s0, t.h);
    DeleteFrame(s0, t.h);
    if !s.entries[t.h].isCs && !s.entries[t.h].deleted {
      NotBuffered(s, step.b);
      var expire := step.now + ClampLifetime(step.lifetime);
      CacheKeeps(s0, t.h, step.b, p.face, expire);
      Runs.CacheFrame(s0, t.h, step.b, p.face, expire);
      var s1 := StoreBuffer(PitToCs(s0, t.h, p.face), t.h, step.b, expire);
      RemoveLockKeeps(s1, t.h);
      Runs.RemoveLockFrame(s1, t.h);
    }
  }

  // ---------------------------------------------------------------------- for how long

  /** A cached packet answers an interest for its name exactly until the end of the
      lifetime of the data that was cached.  After that it ends, and the interest goes on to
      look for the data elsewhere. */
  lemma AnswersUntil(max: nat, nodeCount: nat, steps: seq<Step>, step: Step, h: Handle, i: nat)
    requires Runs.Runs(Runs.Initial(max, nodeCount), steps) && i < |steps|
    requires var s := Runs.Final(Runs.Initial(max, nodeCount), steps);
      && Enabled(s, step) && step.HitCs? && Fits(s, step, h) && !s.entries[h].deleted && h in s.history.born
      && CachesAt(Runs.Initial(max, nodeCount), steps, h, s.history.born[h], i)
    ensures var s := Runs.Final(Runs.Initial(max, nodeCount), steps); var s' := Next(s, step);
      if step.now <= Due(steps[i]) then IsLive(s'.entries, h) && step.b !in s'.packets
      else !IsLive(s'.entries, h) && step.b in s'.packets && s'.packets[step.b].stage == AtStrategy
  {
    hide Inv, Safe, Next, Enabled, Runs.Runs, Runs.Final, Due, CachesAt;
    var s0 := Runs.Initial(max, nodeCount);
    var s := Runs.Final(s0, steps);
    EntriesOverRuns(max, nodeCount, steps, h);
    CachesIsData(s0, steps, h, s.history.born[h]);
    HitCsLeaves(s, step);
    StepOutcome(s, step);
  }

  lemma HitPitSettles(s: State, step: Step, h: Handle)
    requires Safe(s) && Enabled(s, step) && step.HitPit? && Fits(s, step, h) && IsLive(s.entries, h) && !s.entries[h].isCs
    ensures var s' := Next(s, step);
      if step.now <= NodeOf(s, h).data.expire then IsLive(s'.entries, h) && step.b !in s'.packets && Face(s, step) in FacesOf(s', h)
      else !IsLive(s'.entries, h) && step.b in s'.packets && s'.packets[step.b].stage == AtStrategy
  {
    hide Inv, Next, FacesOf, Face;
    HitPitLeaves(s, step);
    StepOutcome(s, step);
    if InTime(s, step, h) {
      SameNode(s, step, h);
      StepFaces(s, step, h);
    }
  }

  /** A pending interest takes in an interest for its name exactly until it expires. */
  lemma AggregatesUntil(max: nat, nodeCount: nat, steps: seq<Step>, step: Step, h: Handle)
    requires Runs.Runs(Runs.Initial(max, nodeCount), steps)
    requires var s := Runs.Final(Runs.Initial(max, nodeCount), steps);
      Enabled(s, step) && step.HitPit? && Fits(s, step, h) && IsLive(s.entries, h) && !s.entries[h].isCs && h in s.history.born
    ensures var s0 := Runs.Initial(max, nodeCount); var s := Runs.Final(s0, steps); var s' := Next(s, step);
      exists i: nat :: i < |steps| && InstallsAt(s0, steps, h, s.history.born[h], i) && steps[i].Strategy? &&
        if step.now <= steps[i].expire then IsLive(s'.entries, h) && step.b !in s'.packets && Face(s, step) in FacesOf(s', h)
        else !IsLive(s'.entries, h) && step.b in s'.packets && s'.packets[step.b].stage == AtStrategy
  {
    hide Inv, Safe, Next, Enabled, Runs.Runs, Runs.Final, InTime, Late, FacesOf, Face;
    var s0 := Runs.Initial(max, nodeCount);
    var s := Runs.Final(s0, steps);
    EntriesOverRuns(max, nodeCount, steps, h);
    var i: nat :| i < |steps| && InstallsAt(s0, steps, h, s.history.born[h], i) && MadeBy(s0, steps, h, i);
    Pairs(s);
    HitPitSettles(s, step, h);
  }

  /** It ends at some step of the run. */
  ghost predicate EndsAt(s: State, steps: seq<Step>, h: Handle, birth: nat, i: nat)
    requires Safe(s) && Runs.Runs(s, steps) && i < |steps|
  {
    var s' := Runs.Moment(s, steps, i);
    IsBorn(s', h, birth) && Ends(s', steps[i], h)
  }

  /** An entry that is to be found is so at the end of a run if and only if it never ended:
      no packet for its name came too late, no data satisfied it without being cached,
      and it was not displaced. */
  lemma {:induction false} LivesUntil(s: State, steps: seq<Step>, h: Handle, birth: nat)
    requires Safe(s) && Runs.Runs(s, steps) && IsBorn(s, h, birth) && IsLive(s.entries, h)
    ensures var s' := Runs.Final(s, steps);
      IsBorn(s', h, birth) && IsLive(s'.entries, h) <==> forall i: nat | i < |steps| :: !EndsAt(s, steps, h, birth, i)
    decreases |steps|
  {
    hide Inv, Safe, Next, Enabled, Runs.Runs, Runs.Final, Ends;
    if steps == [] {
      Runs.RunsNone(s);
    } else {
      Runs.LastStep(s, steps);
      var k := |steps| - 1;
      var front, last := steps[..k], steps[k];
      var s' := Runs.Final(s, front);
      Runs.MomentOfFront(s, steps, k, k);
      LivesUntil(s, front, h, birth);
      forall i: nat | i < k
        ensures EndsAt(s, front, h, birth, i) <==> EndsAt(s, steps, h, birth, i)
      {
        Runs.MomentOfFront(s, steps, k, i);
      }
      LivesOn(s', last, h, birth);
      if IsBorn(s', h, birth) && IsLive(s'.entries, h) {
        if forall i: nat | i < |steps| :: !EndsAt(s, steps, h, birth, i) {
          assert !EndsAt(s, steps, h, birth, k);
        }
      } else {
        var i: nat :| i < k && EndsAt(s, front, h, birth, i);
        assert EndsAt(s, steps, h, birth, i);
        Runs.EvolvesRun(s, front);
        Runs.PastOfEntries(s);
      }
    }
  }

  lemma LivesOn(s: State, step: Step, h: Handle, birth: nat)
    requires Safe(s) && Enabled(s, step)
    ensures var s' := Next(s, step);
      && (IsBorn(s, h, birth) && IsLive(s.entries, h) ==> (IsBorn(s', h, birth) && IsLive(s'.entries, h) <==> !Ends(s, step, h)))
      && (IsBorn(s', h, birth) && IsLive(s'.entries, h) && birth < s.history.clock ==> IsBorn(s, h, birth) && IsLive(s.entries, h))
  {
    hide Inv, Next, Enabled, Ends, Caches;
    StepOutcome(s, step);
    Runs.EvolvesStep(s, step);
    Runs.PastOfEntries(s);
    Runs.PastOfEntries(Next(s, step));
    if h in Next(s, step).entries {
      NewOrOld(s, step, h);
    }
  }

  // ------------------------------------------------------------------------ who gets data

  /** Data that comes in time, and can be cloned, goes to the faces that the pending interest
      lists. */
  function Delivered(s: State, step: Step): seq<nat> {
    if step.DataFwd? && step.cloned && step.b in s.packets && s.packets[step.b].stage.AtDataFwd?
       && Satisfies(s, step, s.packets[step.b].stage.ticket.h)
    then FacesOf(s, s.packets[step.b].stage.ticket.h) else []
  }

  /** These are the faces of all interests that asked for it, each once. */
  lemma DataReachesAskers(max: nat, nodeCount: nat, steps: seq<Step>, step: Step, h: Handle)
    requires Runs.Runs(Runs.Initial(max, nodeCount), steps)
    requires var s := Runs.Final(Runs.Initial(max, nodeCount), steps);
      Enabled(s, step) && step.DataFwd? && step.cloned && Satisfies(s, step, h) && h in s.history.born
    ensures var s0 := Runs.Initial(max, nodeCount); var s := Runs.Final(s0, steps);
      && NoDuplicates(Delivered(s, step))
      && forall f :: f in Delivered(s, step) <==> exists i: nat :: i < |steps| && AsksAt(s0, steps, h, s.history.born[h], f, i)
  {
    hide Inv, Safe, Next, Runs.Runs, Runs.Final, AsksAt, FacesOf;
    FacesAreAskers(max, nodeCount, steps, h);
  }
}
