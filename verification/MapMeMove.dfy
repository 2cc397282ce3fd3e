/** One move of the producer: when MAP-Me has gone quiet, every node whose old route
    meets the path of the update has a route to the producer's new place. */
module MapMeMove {
  import opened MapMe

  /** The routes before the move: a set of next hops for each node. */
  type Routes = map<Id, set<Id>>

  /** All sequence numbers are 0, nobody has anything to tell, nothing is in flight. */
  ghost predicate Before(net: Net, was: Routes) {
    && net.msgs == {}
    && was.Keys == net.nodes.Keys
    && (forall n | n in net.nodes ::
          net.nodes[n].sn == 0 && net.nodes[n].prev == {} && net.nodes[n].owed == {} && net.nodes[n].next == was[n])
    && (forall n | n in was :: was[n] <= was.Keys)
  }

  /** The steps after the move: every former next hop but the ingress becomes a
      previous hop, nobody gives up, and there is no further move. */
  predicate Ordinary(net: Net, step: Step)
    requires Enabled(net, step)
  {
    match step
    case Announce(_, _, _) => false
    case Receive(u, moved) => u.sn > Seq(net, u.to) ==> moved == net.nodes[u.to].next - {u.from}
    case GiveUp(_) => false
    case Send(_, _) => true
    case ReceiveAck(_) => true
    case Lose(_) => true
  }

  ghost predicate OrdinaryRun(net: Net, steps: seq<Step>)
    requires Runs(net, steps)
    decreases |steps|
  {
    steps == [] || (Ordinary(net, steps[0]) && OrdinaryRun(Next(net, steps[0]), steps[1..]))
  }

  /** A node that has not heard of the move routes as before. */
  ghost predicate Untouched(net: Net, was: Routes) {
    forall n | n in net.nodes && net.nodes[n].sn == 0 :: n in was && net.nodes[n].next == was[n] && net.nodes[n].prev == {}
  }

  /** A node that has heard of it still has to tell each of its old next hops, or that
      one has heard. */
  ghost predicate Telling(net: Net, was: Routes, p: Id) {
    forall n, m | n in net.nodes && net.nodes[n].sn == 1 && n != p && n in was && m in was[n] ::
      m in net.nodes && (m in net.nodes[n].prev || net.nodes[m].sn == 1)
  }

  ghost predicate Started(net: Net, p: Id, at: Id) {
    && p in net.nodes && net.nodes[p].sn == 1
    && at in net.nodes && (at in net.nodes[p].prev || net.nodes[at].sn == 1)
  }

  ghost predicate Spreading(net: Net, was: Routes, p: Id, at: Id) {
    Telling(net, was, p) && Started(net, p, at)
  }

  /** A node that has heard of it has a next hop that heard before. */
  ghost predicate Homing(net: Net, p: Id) {
    forall n | n in net.nodes && net.nodes[n].sn == 1 && n != p ::
      exists f :: f in net.nodes[n].next && f in net.nodes && net.nodes[f].sn == 1 && net.nodes[f].stamp < net.nodes[n].stamp
  }

  /** There are two levels, before and after the move; messages are about the move,
      and whoever sends one has heard of it. */
  ghost predicate Numbered(net: Net) {
    forall n | n in net.nodes :: net.nodes[n].sn <= 1 && (net.nodes[n].sn == 1 ==> net.nodes[n].stamp < net.clock)
  }

  ghost predicate Mailed(net: Net) {
    forall m | m in net.msgs :: m.sn == 1 && m.from in net.nodes && m.to in net.nodes && net.nodes[m.from].sn == 1
  }

  ghost predicate Inside(net: Net) {
    forall n | n in net.nodes :: net.nodes[n].next <= net.nodes.Keys && net.nodes[n].prev <= net.nodes.Keys
  }

  ghost predicate Leveled(net: Net) {
    Numbered(net) && Mailed(net) && Inside(net)
  }

  ghost predicate Moving(net: Net, was: Routes, p: Id, at: Id) {
    && was.Keys == net.nodes.Keys
    && Leveled(net) && Untouched(net, was) && Spreading(net, was, p, at) && Homing(net, p)
  }

  lemma MoveStarts(net: Net, was: Routes, p: Id, at: Id)
    requires Before(net, was) && p in net.nodes && at in net.nodes
    ensures Enabled(net, Announce(p, 1, {at}))
    ensures Moving(Next(net, Announce(p, 1, {at})), was, p, at)
  {
  }

  lemma StepNumbered(net: Net, step: Step)
    requires Leveled(net) && Enabled(net, step) && Ordinary(net, step)
    ensures Numbered(Next(net, step))
  {
    hide Inside;
  }

  lemma StepMailed(net: Net, step: Step, was: Routes)
    requires Leveled(net) && Untouched(net, was) && Enabled(net, step) && Ordinary(net, step)
    ensures Mailed(Next(net, step))
  {
  }

  lemma StepInside(net: Net, step: Step)
    requires Mailed(net) && Inside(net) && Enabled(net, step) && Ordinary(net, step)
    ensures Inside(Next(net, step))
  {
  }

  lemma StepLeveled(net: Net, step: Step, was: Routes, p: Id, at: Id)
    requires Moving(net, was, p, at) && Enabled(net, step) && Ordinary(net, step)
    ensures Leveled(Next(net, step))
  {
    hide Spreading, Homing, Untouched, Numbered, Mailed, Inside;
    StepNumbered(net, step);
    StepMailed(net, step, was);
    StepInside(net, step);
  }

  lemma StepUntouched(net: Net, step: Step, was: Routes, p: Id, at: Id)
    requires Moving(net, was, p, at) && Enabled(net, step) && Ordinary(net, step)
    ensures Untouched(Next(net, step), was)
  {
    hide Spreading, Homing;
  }

  lemma StepTelling(net: Net, step: Step, was: Routes, p: Id)
    requires Leveled(net) && Untouched(net, was) && Telling(net, was, p) && Enabled(net, step) && Ordinary(net, step)
    ensures Telling(Next(net, step), was, p)
  {
    hide Numbered;
  }

  lemma StepStarted(net: Net, step: Step, p: Id, at: Id)
    requires Leveled(net) && Started(net, p, at) && Enabled(net, step) && Ordinary(net, step)
    ensures Started(Next(net, step), p, at)
  {
  }

  lemma StepSpreading(net: Net, step: Step, was: Routes, p: Id, at: Id)
    requires Moving(net, was, p, at) && Enabled(net, step) && Ordinary(net, step)
    ensures Spreading(Next(net, step), was, p, at)
  {
    hide Leveled, Untouched, Telling, Started, Homing;
    StepTelling(net, step, was, p);
    StepStarted(net, step, p, at);
  }

  lemma StepHoming(net: Net, step: Step, was: Routes, p: Id, at: Id)
    requires Moving(net, was, p, at) && Enabled(net, step) && Ordinary(net, step)
    ensures Homing(Next(net, step), p)
  {
    hide Spreading, Untouched;
    var net' := Next(net, step);
    forall n | n in net'.nodes && net'.nodes[n].sn == 1 && n != p
      ensures exists f :: f in net'.nodes[n].next && f in net'.nodes && net'.nodes[f].sn == 1 && net'.nodes[f].stamp < net'.nodes[n].stamp
    {
      if step.Receive? && step.u.to == n && step.u.sn > Seq(net, n) {
        assert step.u.from in net'.nodes[n].next;
      } else {
        var f :| f in net.nodes[n].next && f in net.nodes && net.nodes[f].sn == 1 && net.nodes[f].stamp < net.nodes[n].stamp;
        assert f in net'.nodes[n].next;
      }
    }
  }

  lemma StepMoves(net: Net, step: Step, was: Routes, p: Id, at: Id)
    requires Moving(net, was, p, at) && Enabled(net, step) && Ordinary(net, step)
    ensures Moving(Next(net, step), was, p, at)
  {
    StepLeveled(net, step, was, p, at);
    StepUntouched(net, step, was, p, at);
    StepSpreading(net, step, was, p, at);
    StepHoming(net, step, was, p, at);
    hide Leveled, Untouched, Spreading, Homing;
  }

  lemma {:induction false} RunMoves(net: Net, steps: seq<Step>, was: Routes, p: Id, at: Id)
    requires Moving(net, was, p, at) && Runs(net, steps) && OrdinaryRun(net, steps)
    ensures Moving(Final(net, steps), was, p, at)
    decreases |steps|
  {
    hide Moving;
    if steps != [] {
      StepMoves(net, steps[0], was, p, at);
      RunMoves(Next(net, steps[0]), steps[1..], was, p, at);
    }
  }

  // -------------------------------------------------------------------- going quiet

  /** Nobody has anybody left to tell. */
  ghost predicate Quiet(net: Net) {
    forall n | n in net.nodes :: net.nodes[n].prev == {}
  }

  predicate OldHop(was: Routes, q: seq<Id>, i: int) {
    0 <= i < |q| - 1 && q[i] in was && q[i + 1] in was[q[i]]
  }

  /** A route of the old routing. */
  ghost predicate OldRoute(was: Routes, q: seq<Id>) {
    && q != [] && (forall i | 0 <= i < |q| :: q[i] in was)
    && (forall i | 0 <= i < |q| - 1 :: OldHop(was, q, i))
  }

  /** In the quiet, everybody on an old route from the new attachment has heard. */
  lemma {:induction false} RouteHasHeard(net: Net, was: Routes, p: Id, at: Id, r: seq<Id>, i: nat)
    requires Moving(net, was, p, at) && Quiet(net) && OldRoute(was, r) && r[0] == at && p !in r && i < |r|
    ensures r[i] in net.nodes && net.nodes[r[i]].sn == 1
  {
    if i > 0 {
      RouteHasHeard(net, was, p, at, r, i - 1);
      assert OldHop(was, r, i - 1) && r[i - 1] in r;
    }
  }

  /** Whoever has heard has a route to the producer. */
  lemma {:induction false} HeardReaches(net: Net, p: Id, n: Id)
    requires Homing(net, p) && p in net.nodes && n in net.nodes && net.nodes[n].sn == 1
    ensures Reaches(net, n, p)
    decreases net.nodes[n].stamp
  {
    if n == p {
      assert Path(net, [p]);
    } else {
      var f :| f in net.nodes[n].next && f in net.nodes && net.nodes[f].sn == 1 && net.nodes[f].stamp < net.nodes[n].stamp;
      HeardReaches(net, p, f);
      Prepend(net, n, f, p);
    }
  }

  lemma Prepend(net: Net, n: Id, f: Id, p: Id)
    requires n in net.nodes && f in net.nodes[n].next && Reaches(net, f, p)
    ensures Reaches(net, n, p)
  {
    var q :| Path(net, q) && q[0] == f && q[|q| - 1] == p;
    assert Hop(net, [n, f], 0);
    PathJoins(net, [n, f], q);
  }

  /** After one move, once all is quiet, every node whose old route meets an old route
      from the new attachment reaches the producer in its new place. */
  lemma {:induction false} QuietReaches(net: Net, was: Routes, p: Id, at: Id, r: seq<Id>, q: seq<Id>)
    requires Moving(net, was, p, at) && Quiet(net)
    requires OldRoute(was, r) && r[0] == at && p !in r
    requires OldRoute(was, q) && q[|q| - 1] == r[|r| - 1]
    ensures Reaches(net, q[0], p)
    decreases |q|
  {
    if net.nodes[q[0]].sn == 1 {
      HeardReaches(net, p, q[0]);
    } else if |q| == 1 {
      RouteHasHeard(net, was, p, at, r, |r| - 1);
    } else {
      assert OldHop(was, q, 0);
      forall i | 0 <= i < |q[1..]| - 1
        ensures OldHop(was, q[1..], i)
      {
        assert OldHop(was, q, i + 1);
      }
      QuietReaches(net, was, p, at, r, q[1..]);
      Prepend(net, q[0], q[1], p);
    }
  }

  /** The whole story, from the announcement on. */
  lemma MoveConverges(net: Net, was: Routes, p: Id, at: Id, steps: seq<Step>, r: seq<Id>, q: seq<Id>)
    requires Before(net, was) && p in net.nodes && at in net.nodes
    requires Enabled(net, Announce(p, 1, {at}))
    requires Runs(Next(net, Announce(p, 1, {at})), steps) && OrdinaryRun(Next(net, Announce(p, 1, {at})), steps)
    requires Quiet(Final(Next(net, Announce(p, 1, {at})), steps))
    requires OldRoute(was, r) && r[0] == at && p !in r
    requires OldRoute(was, q) && q[|q| - 1] == r[|r| - 1]
    ensures Reaches(Final(Next(net, Announce(p, 1, {at})), steps), q[0], p)
  {
    hide Moving, Reaches;
    MoveStarts(net, was, p, at);
    RunMoves(Next(net, Announce(p, 1, {at})), steps, was, p, at);
    QuietReaches(Final(Next(net, Announce(p, 1, {at})), steps), was, p, at, r, q);
  }
}
