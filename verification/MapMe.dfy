/** MAP-Me, the producer-mobility protocol (hicn-plugin/src/mapme_ctrl_node.c,
    mapme_ack_node.c, mapme_eventmgr.c), as a network of forwarders for one prefix.

    A node's FIB entry has a sequence number, next hops towards the producer and
    previous hops (the TFIB) that still have to be told about the current sequence
    number.  Faces are named by the neighbour at the other end.  Messages may be
    reordered, duplicated and lost. */
module MapMe {

  type Id = nat

  /** `owed` and `stamp` are history: the previous hops recorded at the current
      sequence number, and when it was accepted. */
  datatype Fib = Fib(sn: nat, next: set<Id>, prev: set<Id>, owed: set<Id>, stamp: nat)

  datatype Msg = Update(from: Id, to: Id, sn: nat) | Ack(from: Id, to: Id, sn: nat)

  datatype Net = Net(nodes: map<Id, Fib>, msgs: set<Msg>, clock: nat)

  // ------------------------------------------------------------------------- steps

  /** An Interest Update arrives (mapme_ctrl_node.c): three-way on its sequence
      number.  `moved` are the former next hops that become previous hops. */
  function OnUpdate(fib: Fib, from: Id, sn: nat, moved: set<Id>, now: nat): Fib {
    if sn > fib.sn then
      var prev := (fib.prev - {from}) + moved;
      Fib(sn, {from}, prev, prev, now)
    else if sn == fib.sn then
      fib.(prev := fib.prev - {from}, next := fib.next + {from})
    else
      fib.(prev := fib.prev + {from}, owed := fib.owed + {from})
  }

  /** An acknowledgement arrives (mapme_ack_node.c); outdated ones are ignored. */
  function OnAck(fib: Fib, from: Id, sn: nat): Fib {
    if sn < fib.sn then fib else fib.(prev := fib.prev - {from})
  }

  /** `Announce`: a producer at `p` raises its sequence number and has to tell `to`.
      `Send`: the event manager sends an update to a previous hop, at once or as a
      retransmission.  `GiveUp`: it clears the TFIB after the last retransmission. */
  datatype Step =
    | Announce(p: Id, sn: nat, to: set<Id>)
    | Send(n: Id, m: Id)
    | Receive(u: Msg, moved: set<Id>)
    | ReceiveAck(a: Msg)
    | GiveUp(n: Id)
    | Lose(msg: Msg)

  predicate Enabled(net: Net, step: Step) {
    match step
    case Announce(p, sn, to) => p in net.nodes && sn > net.nodes[p].sn && to <= net.nodes.Keys
    case Send(n, m) => n in net.nodes && m in net.nodes[n].prev
    case Receive(u, moved) =>
      u in net.msgs && u.Update? && u.to in net.nodes && moved <= net.nodes[u.to].next
    case ReceiveAck(a) => a in net.msgs && a.Ack? && a.to in net.nodes
    case GiveUp(n) => n in net.nodes
    case Lose(m) => m in net.msgs
  }

  function Put(net: Net, n: Id, fib: Fib): Net {
    net.(nodes := net.nodes[n := fib])
  }

  function Next(net: Net, step: Step): Net
    requires Enabled(net, step)
  {
    match step
    case Announce(p, sn, to) =>
      Put(net, p, Fib(sn, {}, to, to, net.clock)).(clock := net.clock + 1)
    case Send(n, m) => net.(msgs := net.msgs + {Update(n, m, net.nodes[n].sn)})
    case Receive(u, moved) =>
      var fib := OnUpdate(net.nodes[u.to], u.from, u.sn, moved, net.clock);
      Put(net, u.to, fib).(msgs := net.msgs + {Ack(u.to, u.from, u.sn)}, clock := net.clock + 1)
    case ReceiveAck(a) => Put(net, a.to, OnAck(net.nodes[a.to], a.from, a.sn))
    case GiveUp(n) => Put(net, n, net.nodes[n].(prev := {}, owed := {}))
    case Lose(m) => net.(msgs := net.msgs - {m})
  }

  ghost predicate Runs(net: Net, steps: seq<Step>)
    decreases |steps|
  {
    steps == [] || (Enabled(net, steps[0]) && Runs(Next(net, steps[0]), steps[1..]))
  }

  ghost function Final(net: Net, steps: seq<Step>): Net
    requires Runs(net, steps)
    decreases |steps|
  {
    if steps == [] then net else Final(Next(net, steps[0]), steps[1..])
  }

  // --------------------------------------------------------------------- invariant

  function Seq(net: Net, n: Id): nat
    requires n in net.nodes
  {
    net.nodes[n].sn
  }

  /** Who sends an update or an acknowledgement for a sequence number has it. */
  ghost predicate Truthful(net: Net) {
    forall m | m in net.msgs :: m.from in net.nodes && m.to in net.nodes && m.sn <= Seq(net, m.from)
  }

  /** A next hop is at least as up to date as the node that uses it. */
  ghost predicate Forward(net: Net) {
    forall n, m | n in net.nodes && m in net.nodes[n].next :: m in net.nodes && Seq(net, n) <= Seq(net, m)
  }

  /** A previous hop recorded at the current sequence number is still recorded, or
      has caught up. */
  ghost predicate Notified(net: Net) {
    forall n, p | n in net.nodes && p in net.nodes[n].owed ::
      p in net.nodes && (p in net.nodes[n].prev || Seq(net, n) <= Seq(net, p))
  }

  ghost predicate Known(net: Net) {
    forall n | n in net.nodes :: net.nodes[n].prev <= net.nodes.Keys
  }

  ghost predicate Inv(net: Net) {
    Truthful(net) && Forward(net) && Notified(net) && Known(net)
  }

  /** No sequence number decreases. */
  ghost predicate Rises(net: Net, net': Net) {
    net.nodes.Keys == net'.nodes.Keys && forall n | n in net.nodes :: Seq(net, n) <= Seq(net', n)
  }

  lemma StepRises(net: Net, step: Step)
    requires Inv(net) && Enabled(net, step)
    ensures Rises(net, Next(net, step))
  {
  }

  lemma StepTruthful(net: Net, step: Step)
    requires Inv(net) && Enabled(net, step)
    ensures Truthful(Next(net, step)) && Known(Next(net, step))
  {
    StepRises(net, step);
  }

  lemma StepForward(net: Net, step: Step)
    requires Inv(net) && Enabled(net, step)
    ensures Forward(Next(net, step))
  {
    StepRises(net, step);
  }

  lemma ReceiveNotified(net: Net, step: Step)
    requires Inv(net) && Enabled(net, step) && step.Receive?
    ensures Notified(Next(net, step))
  {
    StepRises(net, step);
    var net' := Next(net, step);
    var n := step.u.to;
    forall p | p in net'.nodes[n].owed
      ensures p in net'.nodes && (p in net'.nodes[n].prev || Seq(net', n) <= Seq(net', p))
    {
      assert p in net.nodes[n].owed || p in net.nodes[n].prev || p in net.nodes[n].next || p == step.u.from;
    }
  }

  lemma OtherNotified(net: Net, step: Step)
    requires Notified(net) && Truthful(net) && Known(net) && Enabled(net, step) && !step.Receive?
    ensures Notified(Next(net, step))
  {
  }

  lemma StepNotified(net: Net, step: Step)
    requires Inv(net) && Enabled(net, step)
    ensures Notified(Next(net, step))
  {
    hide Truthful, Forward, Notified, Known;
    if step.Receive? {
      ReceiveNotified(net, step);
    } else {
      OtherNotified(net, step);
    }
  }

  lemma StepKeeps(net: Net, step: Step)
    requires Inv(net) && Enabled(net, step)
    ensures Inv(Next(net, step))
  {
    hide Truthful, Forward, Notified, Known;
    StepTruthful(net, step);
    StepForward(net, step);
    StepNotified(net, step);
  }

  lemma RisesOn(a: Net, b: Net, c: Net)
    requires Rises(a, b) && Rises(b, c)
    ensures Rises(a, c)
  {
  }

  /** In every run sequence numbers never decrease, next hops are never behind the
      nodes that use them, no acknowledgement is premature, and no previous hop is
      forgotten before it has caught up. */
  lemma {:induction false} RunKeeps(net: Net, steps: seq<Step>)
    requires Inv(net) && Runs(net, steps)
    ensures Inv(Final(net, steps)) && Rises(net, Final(net, steps))
    decreases |steps|
  {
    hide Inv, Rises;
    if steps == [] {
      RisesSelf(net);
    } else {
      var net1 := Next(net, steps[0]);
      StepKeeps(net, steps[0]);
      StepRises(net, steps[0]);
      RunKeeps(net1, steps[1..]);
      RisesOn(net, net1, Final(net1, steps[1..]));
    }
  }

  lemma RisesSelf(net: Net)
    ensures Rises(net, net)
  {
  }

  // -------------------------------------------------------------------------- loops

  ghost predicate Hop(net: Net, q: seq<Id>, i: int) {
    0 <= i < |q| - 1 && q[i] in net.nodes && q[i + 1] in net.nodes[q[i]].next
  }

  /** A walk along next hops. */
  ghost predicate Path(net: Net, q: seq<Id>) {
    && q != []
    && (forall i | 0 <= i < |q| :: q[i] in net.nodes)
    && (forall i | 0 <= i < |q| - 1 :: Hop(net, q, i))
  }

  /** A walk that ends where it began. */
  ghost predicate Cycle(net: Net, q: seq<Id>) {
    Path(net, q) && |q| > 1 && q[0] == q[|q| - 1]
  }

  ghost predicate Acyclic(net: Net) {
    forall q :: !Cycle(net, q)
  }

  /** Sequence numbers do not decrease along a walk. */
  lemma {:induction false} PathClimbs(net: Net, q: seq<Id>, i: nat, j: nat)
    requires Forward(net) && Path(net, q) && i <= j < |q|
    ensures Seq(net, q[i]) <= Seq(net, q[j])
    decreases j - i
  {
    if i < j {
      PathClimbs(net, q, i, j - 1);
      assert Hop(net, q, j - 1);
    }
  }

  /** Whatever the updates, a loop stays within one sequence number. */
  lemma LoopsAreLevel(net: Net, q: seq<Id>, i: nat)
    requires Forward(net) && Cycle(net, q) && i < |q|
    ensures Seq(net, q[i]) == Seq(net, q[0])
  {
    PathClimbs(net, q, 0, i);
    PathClimbs(net, q, i, |q| - 1);
  }

  /** An update that adds a second next hop: the same sequence number again, from a
      face that is not a next hop yet. */
  predicate AddsNextHop(net: Net, step: Step)
    requires Enabled(net, step)
  {
    step.Receive? && step.u.sn == Seq(net, step.u.to) && step.u.from !in net.nodes[step.u.to].next
  }

  /** A node that accepts a higher sequence number is on no loop: nobody on its new
      level uses it yet. */
  lemma AcceptorOffLoops(net: Net, step: Step, q: seq<Id>, i: nat)
    requires Inv(net) && Enabled(net, step) && step.Receive? && step.u.sn > Seq(net, step.u.to)
    requires Cycle(Next(net, step), q) && i < |q|
    ensures q[i] != step.u.to
  {
    StepKeeps(net, step);
    var net', n := Next(net, step), step.u.to;
    if q[i] == n {
      LoopsAreLevel(net', q, i);
      var k := if i == 0 then |q| - 1 else i;
      assert q[k] == n && Hop(net', q, k - 1);
      LoopsAreLevel(net', q, k - 1);
    }
  }

  /** Without multipath additions no step closes a loop. */
  lemma StepKeepsAcyclic(net: Net, step: Step)
    requires Inv(net) && Acyclic(net) && Enabled(net, step) && !AddsNextHop(net, step)
    ensures Acyclic(Next(net, step))
  {
    var net' := Next(net, step);
    forall q
      ensures !Cycle(net', q)
    {
      if Cycle(net', q) {
        forall i | 0 <= i < |q| - 1
          ensures Hop(net, q, i)
        {
          assert Hop(net', q, i);
          if step.Receive? && step.u.sn > Seq(net, step.u.to) {
            AcceptorOffLoops(net, step, q, i);
          }
        }
        StepRises(net, step);
        assert Cycle(net, q);
      }
    }
  }

  /** No step of the run is a multipath addition. */
  ghost predicate SinglePath(net: Net, steps: seq<Step>)
    requires Runs(net, steps)
    decreases |steps|
  {
    steps == [] || (!AddsNextHop(net, steps[0]) && SinglePath(Next(net, steps[0]), steps[1..]))
  }

  /** From a loop-free start, updates without multipath never make a loop. */
  lemma {:induction false} SinglePathIsLoopFree(net: Net, steps: seq<Step>)
    requires Inv(net) && Acyclic(net) && Runs(net, steps) && SinglePath(net, steps)
    ensures Acyclic(Final(net, steps))
    decreases |steps|
  {
    hide Inv, Acyclic;
    if steps != [] {
      StepKeeps(net, steps[0]);
      StepKeepsAcyclic(net, steps[0]);
      SinglePathIsLoopFree(Next(net, steps[0]), steps[1..]);
    }
  }

  ghost predicate Reaches(net: Net, a: Id, b: Id) {
    exists q :: Path(net, q) && q[0] == a && q[|q| - 1] == b
  }

  /** Joining a walk to one that starts where it ends. */
  lemma PathJoins(net: Net, p: seq<Id>, q: seq<Id>)
    requires Path(net, p) && Path(net, q) && p[|p| - 1] == q[0]
    ensures Path(net, p + q[1..]) && (p + q[1..])[0] == p[0]
    ensures (p + q[1..])[|p + q[1..]| - 1] == q[|q| - 1]
  {
    var r := p + q[1..];
    forall i | 0 <= i < |r| - 1
      ensures Hop(net, r, i)
    {
      if i < |p| - 1 {
        assert Hop(net, p, i);
      } else {
        assert Hop(net, q, i - (|p| - 1));
      }
    }
  }

  lemma PathCut(net: Net, q: seq<Id>, i: nat, j: nat)
    requires Path(net, q) && i <= j < |q|
    ensures Path(net, q[i..j + 1])
  {
    var r := q[i..j + 1];
    forall k | 0 <= k < |r| - 1
      ensures Hop(net, r, k)
    {
      assert Hop(net, q, i + k);
    }
  }

  /** The part of a walk before its first visit to `n`, with that visit. */
  lemma {:induction false} FirstVisit(q: seq<Id>, n: Id) returns (j: nat)
    requires q != [] && q[|q| - 1] == n
    ensures j < |q| && q[j] == n && forall k | 0 <= k < j :: q[k] != n
  {
    j := 0;
    while q[j] != n
      invariant j < |q| && forall k | 0 <= k < j :: q[k] != n
      decreases |q| - j
    {
      j := j + 1;
    }
  }

  lemma AdditionCloses(net: Net, step: Step)
    requires Inv(net) && Enabled(net, step) && AddsNextHop(net, step) && Reaches(net, step.u.from, step.u.to)
    ensures !Acyclic(Next(net, step))
  {
    StepRises(net, step);
    hide Inv;
    var net', n, f := Next(net, step), step.u.to, step.u.from;
    var q :| Path(net, q) && q[0] == f && q[|q| - 1] == n;
    forall i | 0 <= i < |q| - 1
      ensures Hop(net', q, i)
    {
      assert Hop(net, q, i);
    }
    assert Hop(net', [n, f], 0);
    PathJoins(net', [n, f], q);
    assert Cycle(net', [n, f] + q[1..]);
  }

  // ---------------------------------------------------------- additions in good order

  /** Within a sequence number, next hops accepted it earlier. */
  ghost predicate Ordered(net: Net) {
    && (forall n | n in net.nodes :: net.nodes[n].stamp < net.clock)
    && (forall n, m | n in net.nodes && m in net.nodes[n].next && m in net.nodes && Seq(net, m) == Seq(net, n) ::
          net.nodes[m].stamp < net.nodes[n].stamp)
  }

  /** A next hop is added only if it accepted the sequence number before the node did. */
  predicate InOrder(net: Net, step: Step)
    requires Enabled(net, step)
  {
    AddsNextHop(net, step) && step.u.from in net.nodes && Seq(net, step.u.from) == Seq(net, step.u.to) ==>
      net.nodes[step.u.from].stamp < net.nodes[step.u.to].stamp
  }

  lemma StepKeepsOrdered(net: Net, step: Step)
    requires Inv(net) && Ordered(net) && Enabled(net, step) && InOrder(net, step)
    ensures Ordered(Next(net, step))
  {
    hide Notified;
    var net' := Next(net, step);
    forall n, m | n in net'.nodes && m in net'.nodes[n].next && m in net'.nodes && Seq(net', m) == Seq(net', n)
      ensures net'.nodes[m].stamp < net'.nodes[n].stamp
    {
    }
  }

  lemma {:induction false} StampsFall(net: Net, q: seq<Id>, i: nat)
    requires Forward(net) && Ordered(net) && Cycle(net, q) && 0 < i < |q|
    ensures q[0] in net.nodes && q[i] in net.nodes && net.nodes[q[i]].stamp < net.nodes[q[0]].stamp
  {
    LoopsAreLevel(net, q, i);
    LoopsAreLevel(net, q, i - 1);
    if i > 1 {
      StampsFall(net, q, i - 1);
    }
    assert Hop(net, q, i - 1);
  }

  /** Such a network has no loop. */
  lemma OrderedIsLoopFree(net: Net)
    requires Forward(net) && Ordered(net)
    ensures Acyclic(net)
  {
    forall q
      ensures !Cycle(net, q)
    {
      if Cycle(net, q) {
        StampsFall(net, q, |q| - 1);
      }
    }
  }

  ghost predicate AllInOrder(net: Net, steps: seq<Step>)
    requires Runs(net, steps)
    decreases |steps|
  {
    steps == [] || (InOrder(net, steps[0]) && AllInOrder(Next(net, steps[0]), steps[1..]))
  }

  /** Multipath is safe as long as nodes add only next hops that accepted the sequence
      number before they did. */
  lemma {:induction false} OrderedAdditionsAreLoopFree(net: Net, steps: seq<Step>)
    requires Inv(net) && Ordered(net) && Runs(net, steps) && AllInOrder(net, steps)
    ensures Ordered(Final(net, steps)) && Acyclic(Final(net, steps))
    decreases |steps|
  {
    if steps == [] {
      OrderedIsLoopFree(net);
    } else {
      hide Ordered, Inv;
      StepKeeps(net, steps[0]);
      StepKeepsOrdered(net, steps[0]);
      OrderedAdditionsAreLoopFree(Next(net, steps[0]), steps[1..]);
    }
  }

  /** A multipath addition closes a loop exactly when the new next hop already leads
      back to the node. */
  lemma AdditionLoopsIff(net: Net, step: Step)
    requires Inv(net) && Acyclic(net) && Enabled(net, step) && AddsNextHop(net, step)
    ensures Acyclic(Next(net, step)) <==> !Reaches(net, step.u.from, step.u.to)
  {
    StepRises(net, step);
    hide Inv;
    var net', n := Next(net, step), step.u.to;
    if Reaches(net, step.u.from, n) {
      AdditionCloses(net, step);
    } else if !Acyclic(net') {
      var q :| Cycle(net', q);
      var w := LoopFromNewHop(net, step, q);
      var j := FirstVisit(w, n);
      PathCut(net', w, 0, j);
      var r := w[0..j + 1];
      forall k | 0 <= k < |r| - 1
        ensures Hop(net, r, k)
      {
        assert Hop(net', r, k);
      }
    }
  }

  /** A loop that was not there before goes from the node to its new next hop; walked
      from there it comes back to the node. */
  lemma LoopFromNewHop(net: Net, step: Step, q: seq<Id>) returns (w: seq<Id>)
    requires Inv(net) && Acyclic(net) && Enabled(net, step) && AddsNextHop(net, step) && Cycle(Next(net, step), q)
    ensures Path(Next(net, step), w) && w[0] == step.u.from && w[|w| - 1] == step.u.to
  {
    StepRises(net, step);
    hide Inv;
    var net' := Next(net, step);
    assert !Cycle(net, q);
    var i :| 0 <= i < |q| - 1 && !Hop(net, q, i);
    assert Hop(net', q, i);
    w := Rotated(net', q, i);
  }

  /** A loop walked from its `i`-th hop. */
  lemma Rotated(net: Net, q: seq<Id>, i: nat) returns (w: seq<Id>)
    requires Cycle(net, q) && i < |q| - 1
    ensures Path(net, w) && w[0] == q[i + 1] && w[|w| - 1] == q[i]
  {
    PathCut(net, q, i + 1, |q| - 1);
    PathCut(net, q, 0, i);
    var tail, front := q[i + 1..|q| - 1 + 1], q[0..i + 1];
    PathJoins(net, tail, front);
    w := tail + front[1..];
  }

  // --------------------------------------------------------- a loop that does happen

  lemma RunsCons(net: Net, step: Step, rest: seq<Step>)
    requires Enabled(net, step) && Runs(Next(net, step), rest)
    ensures Runs(net, [step] + rest) && Final(net, [step] + rest) == Final(Next(net, step), rest)
  {
    assert ([step] + rest)[1..] == rest;
  }

  /** Seven steps in a row. */
  lemma RunsSeven(n0: Net, n1: Net, n2: Net, n3: Net, n4: Net, n5: Net, n6: Net, k: seq<Step>)
    requires |k| == 7
    requires Enabled(n0, k[0]) && n1 == Next(n0, k[0])
    requires Enabled(n1, k[1]) && n2 == Next(n1, k[1])
    requires Enabled(n2, k[2]) && n3 == Next(n2, k[2])
    requires Enabled(n3, k[3]) && n4 == Next(n3, k[3])
    requires Enabled(n4, k[4]) && n5 == Next(n4, k[4])
    requires Enabled(n5, k[5]) && n6 == Next(n5, k[5])
    requires Enabled(n6, k[6])
    ensures Runs(n0, k) && Final(n0, k) == Next(n6, k[6])
  {
    hide Enabled, Next;
    var k6 := [k[6]] + [];
    var k5 := [k[5]] + k6;
    var k4 := [k[4]] + k5;
    var k3 := [k[3]] + k4;
    var k2 := [k[2]] + k3;
    var k1 := [k[1]] + k2;
    RunsCons(n6, k[6], []);
    RunsCons(n5, k[5], k6);
    RunsCons(n4, k[4], k5);
    RunsCons(n3, k[3], k4);
    RunsCons(n2, k[2], k3);
    RunsCons(n1, k[1], k2);
    RunsCons(n0, k[0], k1);
    assert k == [k[0]] + k1;
  }

  function Idle(next: set<Id>): Fib {
    Fib(0, next, {}, {}, 0)
  }

  /** Two forwarders in a line, and a producer that will attach to both. */
  function Start(): Net {
    Net(map[1 := Idle({2}), 2 := Idle({}), 3 := Idle({})], {}, 0)
  }

  lemma StartIsLoopFree()
    ensures Inv(Start()) && Acyclic(Start())
  {
    var net := Start();
    forall q
      ensures !Cycle(net, q)
    {
      if Path(net, q) && |q| > 1 {
        assert Hop(net, q, 0) && (|q| > 2 ==> Hop(net, q, 1));
      }
    }
  }

  /** The producer moves to node 1; node 1's word to node 2 is still under way when the
      producer also attaches to node 2 with a new sequence number. */
  function FirstHalf(): seq<Step> {
    [Announce(3, 1, {1}), Send(3, 1), Receive(Update(3, 1, 1), {2}), Send(1, 2),
     Announce(3, 2, {1, 2}), Send(3, 2), Receive(Update(3, 2, 2), {})]
  }

  /** Node 2 takes the late word for outdated news and answers it; node 1 learns the new
      number from the producer; then each gets the other's word at that number. */
  function SecondHalf(): seq<Step> {
    [Receive(Update(1, 2, 1), {}), Send(2, 1), Send(3, 1), Receive(Update(3, 1, 2), {}),
     Send(1, 2), Receive(Update(2, 1, 2), {}), Receive(Update(1, 2, 2), {})]
  }

  lemma Midway() returns (net: Net)
    ensures Runs(Start(), FirstHalf()) && net == Final(Start(), FirstHalf())
    ensures net.nodes.Keys == {1, 2, 3}
    ensures net.nodes[1].sn == 1 && net.nodes[1].next == {3} && net.nodes[1].prev == {2}
    ensures net.nodes[2].sn == 2 && net.nodes[2].next == {3} && net.nodes[2].prev == {}
    ensures net.nodes[3].sn == 2 && net.nodes[3].prev == {1, 2}
    ensures Update(1, 2, 1) in net.msgs
  {
    var k := FirstHalf();
    var n1 := Next(Start(), k[0]);
    var n2 := Next(n1, k[1]);
    var n3 := Next(n2, k[2]);
    var n4 := Next(n3, k[3]);
    var n5 := Next(n4, k[4]);
    var n6 := Next(n5, k[5]);
    net := Next(n6, k[6]);
    RunsSeven(Start(), n1, n2, n3, n4, n5, n6, k);
  }

  /** From a loop-free start, multipath updates can make two forwarders point at each
      other. */
  lemma MultipathCanLoop() returns (net: Net)
    ensures Runs(Start(), FirstHalf()) && Runs(Final(Start(), FirstHalf()), SecondHalf())
    ensures net == Final(Final(Start(), FirstHalf()), SecondHalf())
    ensures Cycle(net, [1, 2, 1])
  {
    var k := SecondHalf();
    var m := Midway();
    hide Runs, Final;
    var n1 := Next(m, k[0]);
    assert n1.nodes[2].prev == {1} && n1.nodes[2].sn == 2;
    var n2 := Next(n1, k[1]);
    var n3 := Next(n2, k[2]);
    var n4 := Next(n3, k[3]);
    assert n4.nodes[1].sn == 2 && n4.nodes[1].prev == {2} && n4.nodes[2] == n1.nodes[2];
    var n5 := Next(n4, k[4]);
    var n6 := Next(n5, k[5]);
    net := Next(n6, k[6]);
    RunsSeven(m, n1, n2, n3, n4, n5, n6, k);
    assert Hop(net, [1, 2, 1], 0) && Hop(net, [1, 2, 1], 1);
  }
}
