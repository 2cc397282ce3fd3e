/** MAP-Me gets somewhere: every update is acknowledged, and from every state there is a
    run after which nobody has anybody left to tell. */
module MapMeProgress {
  import opened MapMe
  import opened MapMeMove

  // ---------------------------------------------------------------------------- a step

  /** An update is acknowledged whatever its number.  A higher one makes its sender the only
      next hop, an equal one adds it, and the sender of an outdated one is to be told. */
  lemma UpdateIsAnswered(net: Net, u: Msg, moved: set<Id>)
    requires Enabled(net, Receive(u, moved))
    ensures var net' := Next(net, Receive(u, moved)); var fib, fib' := net.nodes[u.to], net'.nodes[u.to];
      && Ack(u.to, u.from, u.sn) in net'.msgs
      && fib'.sn == (if u.sn > fib.sn then u.sn else fib.sn)
      && (u.sn > fib.sn ==> fib'.next == {u.from} && fib'.prev == fib.prev - {u.from} + moved)
      && (u.sn == fib.sn ==> fib'.next == fib.next + {u.from} && fib'.prev == fib.prev - {u.from})
      && (u.sn < fib.sn ==> fib'.next == fib.next && fib'.prev == fib.prev + {u.from})
  {
  }

  /** A current acknowledgement removes its sender from the previous hops, and an outdated one
      does nothing. */
  lemma AckIsTaken(net: Net, a: Msg)
    requires Enabled(net, ReceiveAck(a))
    ensures var net' := Next(net, ReceiveAck(a)); var fib := net.nodes[a.to];
      && net'.nodes == net.nodes[a.to := if a.sn >= fib.sn then fib.(prev := fib.prev - {a.from}) else fib]
      && net'.msgs == net.msgs
  {
  }

  /** A node that gives up has nobody left to tell, and sends nothing more until it hears
      something new. */
  lemma GivingUpForgets(net: Net, n: Id)
    requires Enabled(net, GiveUp(n))
    ensures var net' := Next(net, GiveUp(n));
      && net'.nodes[n].prev == {} && net'.nodes[n].next == net.nodes[n].next && net'.nodes[n].sn == net.nodes[n].sn
      && (forall m :: !Enabled(net', Send(n, m)))
      && (forall m | m in net.nodes && m != n :: net'.nodes[m] == net.nodes[m])
  {
  }

  // ------------------------------------------------------------------- telling one another

  /** Only sending, receiving and acknowledging; all former next hops but the ingress become
      previous hops. */
  predicate Plain(net: Net, step: Step)
    requires Enabled(net, step)
  {
    match step
    case Send(_, _) => true
    case Receive(u, moved) => moved == net.nodes[u.to].next - {u.from}
    case ReceiveAck(_) => true
    case Announce(_, _, _) => false
    case GiveUp(_) => false
    case Lose(_) => false
  }

  ghost predicate PlainRun(net: Net, steps: seq<Step>)
    decreases |steps|
  {
    steps == [] || (Enabled(net, steps[0]) && Plain(net, steps[0]) && PlainRun(Next(net, steps[0]), steps[1..]))
  }

  lemma {:induction false} PlainRuns(net: Net, steps: seq<Step>)
    requires PlainRun(net, steps)
    ensures Runs(net, steps) && OrdinaryRun(net, steps)
    decreases |steps|
  {
    if steps != [] {
      PlainRuns(Next(net, steps[0]), steps[1..]);
    }
  }

  ghost function After(net: Net, steps: seq<Step>): Net
    requires PlainRun(net, steps)
  {
    PlainRuns(net, steps);
    Final(net, steps)
  }

  lemma {:induction false} PlainJoins(net: Net, a: seq<Step>, b: seq<Step>)
    requires PlainRun(net, a) && PlainRun(After(net, a), b)
    ensures PlainRun(net, a + b) && After(net, a + b) == After(After(net, a), b)
    decreases |a|
  {
    if a == [] {
      assert a + b == b;
    } else {
      assert (a + b)[0] == a[0] && (a + b)[1..] == a[1..] + b;
      PlainJoins(Next(net, a[0]), a[1..], b);
    }
  }

  lemma PlainCons(net: Net, step: Step, rest: seq<Step>)
    requires Enabled(net, step) && Plain(net, step) && PlainRun(Next(net, step), rest)
    ensures PlainRun(net, [step] + rest) && After(net, [step] + rest) == After(Next(net, step), rest)
  {
    assert ([step] + rest)[1..] == rest;
  }

  /** Node `n` sends the update to `m`, which receives and acknowledges it. */
  function Exchange(net: Net, n: Id, m: Id): seq<Step>
    requires n in net.nodes && m in net.nodes
  {
    var sn := net.nodes[n].sn;
    [Send(n, m)] + ([Receive(Update(n, m, sn), net.nodes[m].next - {n})] + ([ReceiveAck(Ack(m, n, sn))] + []))
  }

  /** What comes of it. */
  function Told(net: Net, n: Id, m: Id): map<Id, Fib>
    requires n in net.nodes && m in net.nodes
  {
    var sn := net.nodes[n].sn;
    var nodes := net.nodes[m := OnUpdate(net.nodes[m], n, sn, net.nodes[m].next - {n}, net.clock)];
    nodes[n := OnAck(nodes[n], m, sn)]
  }

  lemma Exchanges(net: Net, n: Id, m: Id)
    requires n in net.nodes && m in net.nodes && m in net.nodes[n].prev
    ensures PlainRun(net, Exchange(net, n, m)) && After(net, Exchange(net, n, m)).nodes == Told(net, n, m)
  {
    hide OnUpdate, OnAck;
    var sn := net.nodes[n].sn;
    var k := [Send(n, m), Receive(Update(n, m, sn), net.nodes[m].next - {n}), ReceiveAck(Ack(m, n, sn))];
    var n1 := Next(net, k[0]);
    var n2 := Next(n1, k[1]);
    PlainCons(n2, k[2], []);
    PlainCons(n1, k[1], [k[2]] + []);
    PlainCons(net, k[0], [k[1]] + ([k[2]] + []));
  }

  // ------------------------------------------------------------------------- how far it is

  /** No node is ahead of this number. */
  ghost predicate Below(nodes: map<Id, Fib>, top: nat) {
    forall n | n in nodes :: nodes[n].sn <= top
  }

  /** The numbers that nodes have still to reach. */
  ghost function Ahead(nodes: map<Id, Fib>, top: nat): set<(Id, int)> {
    set n, k | n in nodes && 0 <= k <= top && nodes[n].sn < k :: (n, k)
  }

  /** Who has to tell whom. */
  ghost function Open(nodes: map<Id, Fib>): set<(Id, Id)> {
    set n, m | n in nodes && m in nodes[n].prev :: (n, m)
  }

  /** Nobody falls back, and somebody gets ahead or has one less to tell. */
  ghost predicate Nearer(a: map<Id, Fib>, b: map<Id, Fib>, top: nat) {
    Ahead(b, top) <= Ahead(a, top) && (Ahead(b, top) < Ahead(a, top) || Open(b) < Open(a))
  }

  lemma SubsetSmaller<T>(a: set<T>, b: set<T>)
    requires a <= b
    ensures |a| <= |b| && (a < b ==> |a| < |b|)
  {
    assert b == a + (b - a);
  }

  lemma ToldBelow(net: Net, n: Id, m: Id, top: nat)
    requires n in net.nodes && m in net.nodes && Below(net.nodes, top)
    ensures var t := Told(net, n, m); t.Keys == net.nodes.Keys && Below(t, top) && Ahead(t, top) <= Ahead(net.nodes, top)
    ensures var t := Told(net, n, m); forall x | x in net.nodes :: net.nodes[x].sn <= t[x].sn
  {
  }

  /** A node that is told a higher number gets ahead. */
  lemma TellingRaises(net: Net, n: Id, m: Id, top: nat)
    requires n in net.nodes && m in net.nodes && Below(net.nodes, top) && net.nodes[m].sn < net.nodes[n].sn
    ensures Ahead(Told(net, n, m), top) < Ahead(net.nodes, top)
  {
    ToldBelow(net, n, m, top);
    hide Below;
    var t, k := Told(net, n, m), net.nodes[n].sn;
    assert k <= top by { assert Below(net.nodes, top); HighIs(net.nodes, n, top); }
    assert (m, k) in Ahead(net.nodes, top) && (m, k) !in Ahead(t, top);
  }

  lemma HighIs(nodes: map<Id, Fib>, n: Id, top: nat)
    requires Below(nodes, top) && n in nodes
    ensures nodes[n].sn <= top
  {
  }

  /** Among equals the sender has one less to tell. */
  lemma TellingCloses(net: Net, n: Id, m: Id)
    requires n in net.nodes && m in net.nodes[n].prev && m in net.nodes && net.nodes[m].sn == net.nodes[n].sn
    ensures Open(Told(net, n, m)) < Open(net.nodes)
  {
    var t := Told(net, n, m);
    assert forall x | x in t :: t[x].prev <= net.nodes[x].prev;
    assert (n, m) in Open(net.nodes) && (n, m) !in Open(t);
  }

  /** A node that is ahead of the sender will tell it. */
  lemma TellingTurns(net: Net, n: Id, m: Id)
    requires n in net.nodes && m in net.nodes && net.nodes[n].sn < net.nodes[m].sn
    ensures var t := Told(net, n, m); n in t && m in t && n in t[m].prev && t[n].sn == net.nodes[n].sn && t[m].sn == net.nodes[m].sn
  {
  }

  /** One exchange, or one in each direction, brings it nearer. */
  lemma OneTells(net: Net, n: Id, m: Id, top: nat) returns (steps: seq<Step>)
    requires n in net.nodes && m in net.nodes[n].prev && m in net.nodes && Below(net.nodes, top)
    ensures PlainRun(net, steps) && Below(After(net, steps).nodes, top) && Nearer(net.nodes, After(net, steps).nodes, top)
  {
    hide Told, Below, Ahead, Open, PlainRun, After, Exchange;
    Exchanges(net, n, m);
    ToldBelow(net, n, m, top);
    steps := Exchange(net, n, m);
    if net.nodes[m].sn < net.nodes[n].sn {
      TellingRaises(net, n, m, top);
    } else if net.nodes[m].sn == net.nodes[n].sn {
      TellingCloses(net, n, m);
    } else {
      TellingTurns(net, n, m);
      var net1 := After(net, steps);
      Exchanges(net1, m, n);
      ToldBelow(net1, m, n, top);
      TellingRaises(net1, m, n, top);
      PlainJoins(net, steps, Exchange(net1, m, n));
      steps := steps + Exchange(net1, m, n);
    }
  }

  lemma {:induction false} PlainKeeps(net: Net, steps: seq<Step>)
    requires Inv(net) && PlainRun(net, steps)
    ensures Inv(After(net, steps))
  {
    hide Inv;
    PlainRuns(net, steps);
    RunKeeps(net, steps);
  }

  lemma {:induction false} QuietBelow(net: Net, top: nat) returns (steps: seq<Step>)
    requires Inv(net) && Below(net.nodes, top)
    ensures PlainRun(net, steps) && Quiet(After(net, steps))
    decreases |Ahead(net.nodes, top)|, |Open(net.nodes)|
  {
    if Quiet(net) {
      return [];
    }
    var n :| n in net.nodes && net.nodes[n].prev != {};
    var m :| m in net.nodes[n].prev;
    assert m in net.nodes;
    hide Inv, Below, PlainRun, After, Ahead, Open, Quiet;
    var first := OneTells(net, n, m, top);
    var net1 := After(net, first);
    PlainKeeps(net, first);
    SubsetSmaller(Ahead(net1.nodes, top), Ahead(net.nodes, top));
    if Open(net1.nodes) <= Open(net.nodes) {
      SubsetSmaller(Open(net1.nodes), Open(net.nodes));
    }
    var rest := QuietBelow(net1, top);
    PlainJoins(net, first, rest);
    steps := first + rest;
  }

  lemma {:induction false} SomeTop(nodes: map<Id, Fib>, ids: set<Id>) returns (top: nat)
    ensures forall n | n in nodes && n in ids :: nodes[n].sn <= top
    decreases |ids|
  {
    top := 0;
    if ids != {} {
      var n :| n in ids;
      top := SomeTop(nodes, ids - {n});
      if n in nodes && nodes[n].sn > top {
        top := nodes[n].sn;
      }
    }
  }

  /** From every state of the network there is a run of sending, receiving and acknowledging
      after which nobody has anybody left to tell. */
  lemma QuietIsReachable(net: Net) returns (steps: seq<Step>)
    requires Inv(net)
    ensures PlainRun(net, steps) && Quiet(After(net, steps))
  {
    hide Inv, PlainRun, After, Quiet;
    var top := SomeTop(net.nodes, net.nodes.Keys);
    steps := QuietBelow(net, top);
  }

  /** So every move can converge: there is a run after which the nodes whose old routes meet
      one from the new attachment reach the producer there. */
  lemma MoveCanConverge(net: Net, was: Routes, p: Id, at: Id) returns (steps: seq<Step>)
    requires Before(net, was) && p in net.nodes && at in net.nodes && Enabled(net, Announce(p, 1, {at}))
    ensures var net1 := Next(net, Announce(p, 1, {at}));
      && Runs(net1, steps) && OrdinaryRun(net1, steps) && Quiet(Final(net1, steps))
      && forall r, q | OldRoute(was, r) && r[0] == at && p !in r && OldRoute(was, q) && q[|q| - 1] == r[|r| - 1] ::
           Reaches(Final(net1, steps), q[0], p)
  {
    var net1 := Next(net, Announce(p, 1, {at}));
    assert Inv(net);
    StepKeeps(net, Announce(p, 1, {at}));
    hide Inv, Runs, Final, OrdinaryRun, PlainRun, OldRoute, Reaches, Before, Enabled, Next, Quiet;
    steps := QuietIsReachable(net1);
    PlainRuns(net1, steps);
    forall r, q | OldRoute(was, r) && r[0] == at && p !in r && OldRoute(was, q) && q[|q| - 1] == r[|r| - 1]
      ensures Reaches(Final(net1, steps), q[0], p)
    {
      MoveConverges(net, was, p, at, steps, r, q);
    }
  }

  // ------------------------------------------------------------------------------ catching up

  /** Node `n` does not give up and does not announce a move of its own. */
  predicate Patient(steps: seq<Step>, n: Id) {
    forall i | 0 <= i < |steps| :: steps[i] != GiveUp(n) && !(steps[i].Announce? && steps[i].p == n)
  }

  /** Node `p` has the number or will be told. */
  ghost predicate Due(net: Net, n: Id, p: Id, sn: nat) {
    n in net.nodes && p in net.nodes && (sn <= Seq(net, p) || (sn <= Seq(net, n) && p in net.nodes[n].prev))
  }

  lemma StepDue(net: Net, step: Step, n: Id, p: Id, sn: nat)
    requires Inv(net) && Enabled(net, step) && Due(net, n, p, sn) && step != GiveUp(n) && !(step.Announce? && step.p == n)
    ensures Due(Next(net, step), n, p, sn)
  {
    StepRises(net, step);
    hide Forward, Notified, Known;
  }

  lemma {:induction false} RunDue(net: Net, steps: seq<Step>, n: Id, p: Id, sn: nat)
    requires Inv(net) && Runs(net, steps) && Due(net, n, p, sn) && Patient(steps, n)
    ensures Due(Final(net, steps), n, p, sn)
    decreases |steps|
  {
    hide Inv, Due;
    if steps != [] {
      StepKeeps(net, steps[0]);
      StepDue(net, steps[0], n, p, sn);
      RunDue(Next(net, steps[0]), steps[1..], n, p, sn);
    }
  }

  /** Over any run, with messages lost and repeated, in which a node is patient: who is a
      previous hop of it, and who sends it an outdated update, is recorded until it has
      caught up with the node. */
  lemma OutdatedCatchesUp(net: Net, u: Msg, moved: set<Id>, steps: seq<Step>)
    requires Inv(net) && Enabled(net, Receive(u, moved)) && u.sn < Seq(net, u.to)
    requires Runs(Next(net, Receive(u, moved)), steps) && Patient(steps, u.to)
    ensures var net' := Final(Next(net, Receive(u, moved)), steps);
      && u.to in net'.nodes && u.from in net'.nodes
      && (u.from in net'.nodes[u.to].prev || Seq(net, u.to) <= Seq(net', u.from))
  {
    var net1 := Next(net, Receive(u, moved));
    StepKeeps(net, Receive(u, moved));
    RunKeeps(net1, steps);
    RunDue(net1, steps, u.to, u.from, Seq(net, u.to));
  }

  // --------------------------------------------------------------------------- next or previous

  /** No node is both a next and a previous hop of another. */
  ghost predicate Apart(net: Net) {
    forall n | n in net.nodes :: net.nodes[n].next !! net.nodes[n].prev
  }

  lemma StepApart(net: Net, step: Step, was: Routes, p: Id, at: Id)
    requires Moving(net, was, p, at) && Apart(net) && Enabled(net, step) && Ordinary(net, step)
    ensures Apart(Next(net, step))
  {
    hide Spreading, Homing, Untouched, Inside;
  }

  lemma {:induction false} RunApart(net: Net, steps: seq<Step>, was: Routes, p: Id, at: Id)
    requires Moving(net, was, p, at) && Apart(net) && Runs(net, steps) && OrdinaryRun(net, steps)
    ensures Apart(Final(net, steps))
    decreases |steps|
  {
    hide Moving, Apart;
    if steps != [] {
      StepMoves(net, steps[0], was, p, at);
      StepApart(net, steps[0], was, p, at);
      RunApart(Next(net, steps[0]), steps[1..], was, p, at);
    }
  }
}
