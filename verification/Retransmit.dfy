/** The retransmission scheduler of MAP-Me (hicn_mapme_eventmgr_process in
    hicn-plugin/src/mapme_eventmgr.c): two slots of records that swap at every
    timeout. */
module Retransmit {
  import opened Lists

  const RTX_MAX := 10
  const NUM_RETX_ENTRIES := 100

  /** A record: the FIB entry whose previous hops are told, none once deleted, and how
      often they have been told again. */
  datatype Retx = Retx(dpo: Option<nat>, count: nat)

  /** The current slot, the next slot, the number of idle timeouts, and whether the
      timer runs. */
  datatype Sched = Sched(now: seq<Retx>, next: seq<Retx>, idle: nat, armed: bool)

  function Armed(s: Sched): Sched {
    s.(armed := s.idle <= 1)
  }

  // ------------------------------------------------------------------------ events

  function Kill(q: seq<Retx>, d: nat): (r: seq<Retx>)
    ensures |r| == |q|
    ensures forall i | 0 <= i < |q| :: r[i] == if q[i].dpo == Some(d) then q[i].(dpo := None) else q[i]
  {
    seq(|q|, i requires 0 <= i < |q| => if q[i].dpo == Some(d) then q[i].(dpo := None) else q[i])
  }

  predicate Has(q: seq<Retx>, d: nat) {
    exists i :: 0 <= i < |q| && q[i].dpo == Some(d)
  }

  function Schedule(q: seq<Retx>, d: nat): seq<Retx> {
    if Has(q, d) then q else q + [Retx(Some(d), 0)]
  }

  /** A FIB entry got a new next hop: told at once, not again in this slot, but in the
      next. */
  function OnNextHopSet(s: Sched, d: nat): Sched {
    Armed(s.(now := Kill(s.now, d), next := Schedule(s.next, d), idle := 0))
  }

  /** Faces and next hops added, faces deleted, previous hops added. */
  function OnOther(s: Sched): Sched {
    Armed(s.(idle := 0))
  }

  /** A previous hop acknowledged: nothing to schedule. */
  function OnPrevHopDeleted(s: Sched): Sched {
    Armed(s)
  }

  /** The records of the current slot that go on: told once more, and not yet for the
      last time. */
  function Again(q: seq<Retx>, known: set<nat>): seq<Retx> {
    if q == [] then []
    else
      var r := q[0];
      if r.dpo.Some? && r.dpo.value in known && r.count + 1 < RTX_MAX
      then [r.(count := r.count + 1)] + Again(q[1..], known)
      else Again(q[1..], known)
  }

  /** A timeout; `known` are the FIB entries that still exist. */
  function OnTimeout(s: Sched, known: set<nat>): Sched {
    var again := Again(s.now, known);
    Armed(Sched(s.next + again, [], if again == [] then s.idle + 1 else 0, s.armed))
  }

  /** The timeout sends updates for this FIB entry again; it does so for the last time and
      then clears its previous hops. */
  ghost predicate Sends(s: Sched, known: set<nat>, d: nat) {
    d in known && Has(s.now, d)
  }

  ghost predicate Drops(s: Sched, known: set<nat>, d: nat) {
    d in known && Retx(Some(d), RTX_MAX - 1) in s.now
  }

  // --------------------------------------------------------------------- invariant

  /** At most one live record per FIB entry. */
  ghost predicate Distinct(q: seq<Retx>) {
    forall i, j | 0 <= i < j < |q| && q[i].dpo.Some? :: q[i].dpo != q[j].dpo
  }

  ghost predicate Live(q: seq<Retx>) {
    exists i :: 0 <= i < |q| && q[i].dpo.Some?
  }

  /** Records are for entries of `all` and have not been told too often. */
  ghost predicate Proper(q: seq<Retx>, all: set<nat>) {
    forall i | 0 <= i < |q| :: q[i].count < RTX_MAX && (q[i].dpo.Some? ==> q[i].dpo.value in all)
  }

  ghost predicate AllLive(q: seq<Retx>) {
    forall i | 0 <= i < |q| :: q[i].dpo.Some?
  }

  /** `all` are the FIB entries there can be. */
  ghost predicate Valid(s: Sched, all: set<nat>) {
    && Distinct(s.now) && Distinct(s.next) && AllLive(s.next)
    && (forall i, j | 0 <= i < |s.now| && 0 <= j < |s.next| && s.now[i].dpo.Some? :: s.now[i].dpo != s.next[j].dpo)
    && Proper(s.now, all) && Proper(s.next, all)
    && |s.now| <= |all| && |s.next| <= |all|
    && (Live(s.now) ==> s.idle <= 1 && s.armed)
    && (s.next != [] ==> s.idle == 0 && s.armed)
    && (s.armed ==> s.idle <= 1)
  }

  // -------------------------------------------------------------------- the loops

  /** Distinct live records are no more than the entries. */
  lemma {:induction false} FewRecords(q: seq<Retx>, all: set<nat>)
    requires Distinct(q) && AllLive(q) && Proper(q, all)
    ensures |q| <= |all|
  {
    if q != [] {
      var r, t := q[0], q[1..];
      assert forall i | 0 <= i < |t| :: t[i] == q[i + 1];
      FewRecords(t, all - {r.dpo.value});
    }
  }

  lemma {:induction false} AgainIsLive(q: seq<Retx>, known: set<nat>)
    ensures AllLive(Again(q, known)) && |Again(q, known)| <= |q|
  {
    if q != [] {
      AgainIsLive(q[1..], known);
    }
  }

  /** A record that goes on was in the slot, told once less. */
  lemma {:induction false} AgainOrigin(q: seq<Retx>, known: set<nat>, j: nat) returns (i: nat)
    requires j < |Again(q, known)|
    ensures i < |q| && q[i].dpo == Again(q, known)[j].dpo && q[i].dpo.Some?
    ensures q[i].count + 1 == Again(q, known)[j].count < RTX_MAX
  {
    var r, t := q[0], q[1..];
    if r.dpo.Some? && r.dpo.value in known && r.count + 1 < RTX_MAX {
      if j == 0 {
        i := 0;
      } else {
        i := AgainOrigin(t, known, j - 1);
        i := i + 1;
      }
    } else {
      i := AgainOrigin(t, known, j);
      i := i + 1;
    }
  }

  /** A record in the slot that still has rounds left goes on. */
  lemma {:induction false} AgainKeeps(q: seq<Retx>, known: set<nat>, i: nat)
    requires i < |q| && q[i].dpo.Some? && q[i].dpo.value in known && q[i].count + 1 < RTX_MAX
    ensures q[i].(count := q[i].count + 1) in Again(q, known)
  {
    if i > 0 {
      AgainKeeps(q[1..], known, i - 1);
    }
  }

  lemma {:induction false} AgainDistinct(q: seq<Retx>, known: set<nat>)
    requires Distinct(q)
    ensures Distinct(Again(q, known))
  {
    if q != [] {
      var t := q[1..];
      assert forall i | 0 <= i < |t| :: t[i] == q[i + 1];
      AgainDistinct(t, known);
      forall j | 0 <= j < |Again(t, known)|
        ensures Again(t, known)[j].dpo != q[0].dpo || q[0].dpo.None?
      {
        var i := AgainOrigin(t, known, j);
      }
    }
  }

  // ------------------------------------------------------------ the invariant is kept

  lemma NextHopSetKeeps(s: Sched, all: set<nat>, d: nat)
    requires Valid(s, all) && d in all
    ensures Valid(OnNextHopSet(s, d), all)
  {
    var s' := OnNextHopSet(s, d);
    FewRecords(s'.next, all);
  }

  lemma OthersKeep(s: Sched, all: set<nat>)
    requires Valid(s, all)
    ensures Valid(OnOther(s), all) && Valid(OnPrevHopDeleted(s), all)
  {
  }

  lemma JoinedDistinct(a: seq<Retx>, b: seq<Retx>)
    requires Distinct(a) && Distinct(b)
    requires forall i, j | 0 <= i < |a| && 0 <= j < |b| && a[i].dpo.Some? :: a[i].dpo != b[j].dpo
    ensures Distinct(a + b)
  {
  }

  lemma AgainProper(q: seq<Retx>, all: set<nat>, known: set<nat>)
    requires Proper(q, all)
    ensures Proper(Again(q, known), all)
  {
    forall j | 0 <= j < |Again(q, known)|
      ensures Again(q, known)[j].count < RTX_MAX && Again(q, known)[j].dpo.Some? && Again(q, known)[j].dpo.value in all
    {
      var i := AgainOrigin(q, known, j);
    }
  }

  /** What is told again is not in the next slot yet. */
  lemma AgainApart(s: Sched, all: set<nat>, known: set<nat>, k: nat, j: nat)
    requires Valid(s, all) && k < |s.next| && j < |Again(s.now, known)|
    ensures s.next[k].dpo != Again(s.now, known)[j].dpo
  {
    hide Again;
    var i := AgainOrigin(s.now, known, j);
  }

  lemma JoinedProper(a: seq<Retx>, b: seq<Retx>, all: set<nat>)
    requires Proper(a, all) && Proper(b, all) && AllLive(a) && AllLive(b)
    ensures Proper(a + b, all) && AllLive(a + b)
  {
  }

  /** What the next slot holds after a timeout. */
  lemma JoinedSlots(s: Sched, all: set<nat>, known: set<nat>)
    requires Valid(s, all)
    ensures var q := s.next + Again(s.now, known); Distinct(q) && AllLive(q) && Proper(q, all) && |q| <= |all|
  {
    hide Again, Proper, AllLive;
    var again := Again(s.now, known);
    forall k, j | 0 <= k < |s.next| && 0 <= j < |again|
      ensures s.next[k].dpo != again[j].dpo
    {
      AgainApart(s, all, known, k, j);
    }
    AgainIsLive(s.now, known);
    AgainDistinct(s.now, known);
    AgainProper(s.now, all, known);
    JoinedDistinct(s.next, again);
    JoinedProper(s.next, again, all);
    FewRecords(s.next + again, all);
  }

  lemma NoneIsFine(all: set<nat>)
    ensures Distinct([]) && AllLive([]) && Proper([], all)
  {
  }

  lemma LiveSome(q: seq<Retx>)
    ensures Live(q) ==> q != []
  {
  }

  lemma TimeoutKeeps(s: Sched, all: set<nat>, known: set<nat>)
    requires Valid(s, all) && s.armed
    ensures Valid(OnTimeout(s, known), all)
  {
    hide Again, Distinct, Proper, AllLive, Live;
    JoinedSlots(s, all, known);
    NoneIsFine(all);
    LiveSome(s.next + Again(s.now, known));
  }

  // ------------------------------------------------------------------------- runs

  datatype Event = NextHopSet(d: nat) | Other | PrevHopDeleted | Timeout(known: set<nat>)

  /** A timeout can only come while the timer runs. */
  predicate Possible(s: Sched, e: Event, all: set<nat>) {
    match e
    case NextHopSet(d) => d in all
    case Other => true
    case PrevHopDeleted => true
    case Timeout(_) => s.armed
  }

  function Handle(s: Sched, e: Event): Sched {
    match e
    case NextHopSet(d) => OnNextHopSet(s, d)
    case Other => OnOther(s)
    case PrevHopDeleted => OnPrevHopDeleted(s)
    case Timeout(known) => OnTimeout(s, known)
  }

  ghost predicate Runs(s: Sched, es: seq<Event>, all: set<nat>)
    decreases |es|
  {
    es == [] || (Possible(s, es[0], all) && Runs(Handle(s, es[0]), es[1..], all))
  }

  function Final(s: Sched, es: seq<Event>): Sched
    decreases |es|
  {
    if es == [] then s else Final(Handle(s, es[0]), es[1..])
  }

  const INITIAL := Sched([], [], 0, false)

  lemma HandleKeeps(s: Sched, e: Event, all: set<nat>)
    requires Valid(s, all) && Possible(s, e, all)
    ensures Valid(Handle(s, e), all)
  {
    hide Valid;
    match e {
      case NextHopSet(d) => NextHopSetKeeps(s, all, d);
      case Other => OthersKeep(s, all);
      case PrevHopDeleted => OthersKeep(s, all);
      case Timeout(known) => TimeoutKeeps(s, all, known);
    }
  }

  lemma {:induction false} RunKeeps(s: Sched, es: seq<Event>, all: set<nat>)
    requires Valid(s, all) && Runs(s, es, all)
    ensures Valid(Final(s, es), all)
    decreases |es|
  {
    hide Valid;
    if es != [] {
      HandleKeeps(s, es[0], all);
      RunKeeps(Handle(s, es[0]), es[1..], all);
    }
  }

  /** For any events about at most 100 FIB entries neither slot overflows, no entry has
      two live records, and the timer runs while there is a live record. */
  lemma EveryRun(es: seq<Event>, all: set<nat>)
    requires |all| <= NUM_RETX_ENTRIES && Runs(INITIAL, es, all)
    ensures var s := Final(INITIAL, es);
      && |s.now| <= NUM_RETX_ENTRIES && |s.next| <= NUM_RETX_ENTRIES
      && Distinct(s.now + s.next)
      && (Live(s.now + s.next) ==> s.armed)
  {
    assert Valid(INITIAL, all);
    RunKeeps(INITIAL, es, all);
    var s := Final(INITIAL, es);
    var q := s.now + s.next;
    assert forall i | 0 <= i < |q| :: q[i] == if i < |s.now| then s.now[i] else s.next[i - |s.now|];
    if Live(q) {
      var i :| 0 <= i < |q| && q[i].dpo.Some?;
      if i < |s.now| {
        assert Live(s.now);
      }
    }
  }

  /** A new next hop for each of some FIB entries fills the next slot. */
  lemma {:induction false} SetEach(s: Sched, left: set<nat>, all: set<nat>) returns (es: seq<Event>)
    requires left <= all && forall d | d in left :: !Has(s.next, d)
    ensures Runs(s, es, all) && |Final(s, es).next| == |s.next| + |left|
    decreases |left|
  {
    if left == {} {
      es := [];
    } else {
      var d :| d in left;
      var s' := OnNextHopSet(s, d);
      forall x | x in left - {d}
        ensures !Has(s'.next, x)
      {
        assert s'.next == s.next + [Retx(Some(d), 0)];
      }
      var rest := SetEach(s', left - {d}, all);
      es := [NextHopSet(d)] + rest;
      assert es[1..] == rest;
    }
  }

  /** Within the slots, as the code does not check. */
  ghost predicate SlotsFit(s: Sched) {
    |s.now| <= NUM_RETX_ENTRIES && |s.next| <= NUM_RETX_ENTRIES
  }

  /** The slots never overflow if and only if there are at most 100 FIB entries. */
  lemma SlotsFitIff(all: set<nat>)
    ensures (forall es | Runs(INITIAL, es, all) :: SlotsFit(Final(INITIAL, es))) <==> |all| <= NUM_RETX_ENTRIES
  {
    if |all| <= NUM_RETX_ENTRIES {
      forall es | Runs(INITIAL, es, all)
        ensures SlotsFit(Final(INITIAL, es))
      {
        EveryRun(es, all);
      }
    } else {
      var es := SetEach(INITIAL, all, all);
      assert !SlotsFit(Final(INITIAL, es));
    }
  }

  // ------------------------------------------------------------------- the timer stops

  /** At most `k` more timeouts. */
  ghost predicate Within(s: Sched, k: int) {
    s.armed ==>
      && k >= 1
      && (forall i | 0 <= i < |s.now| && s.now[i].dpo.Some? :: RTX_MAX - s.now[i].count + 1 <= k)
      && (forall i | 0 <= i < |s.next| :: RTX_MAX - s.next[i].count + 2 <= k)
      && (!Live(s.now) && s.next == [] ==> 2 - s.idle <= k)
  }

  lemma TimeoutNears(s: Sched, all: set<nat>, known: set<nat>, k: int)
    requires Valid(s, all) && s.armed && Within(s, k)
    ensures Within(OnTimeout(s, known), k - 1)
  {
    hide Again, Distinct;
    var again := Again(s.now, known);
    var s' := OnTimeout(s, known);
    AgainIsLive(s.now, known);
    forall j | 0 <= j < |again|
      ensures RTX_MAX - again[j].count + 1 <= k - 1
    {
      var i := AgainOrigin(s.now, known, j);
    }
    if s'.armed {
      if s.next != [] {
        assert RTX_MAX - s.next[0].count + 2 <= k;
      }
      if again != [] {
        var i := AgainOrigin(s.now, known, 0);
      }
      if s'.now != [] {
        assert s'.now[0].dpo.Some?;
        assert Live(s'.now);
      }
      if Live(s.now) {
        var i :| 0 <= i < |s.now| && s.now[i].dpo.Some?;
        assert RTX_MAX - s.now[i].count + 1 <= k;
      }
    }
  }

  /** A row of timeouts. */
  ghost predicate Timeouts(s: Sched, knowns: seq<set<nat>>)
    decreases |knowns|
  {
    knowns == [] || (s.armed && Timeouts(OnTimeout(s, knowns[0]), knowns[1..]))
  }

  lemma {:induction false} TimeoutsEnd(s: Sched, all: set<nat>, knowns: seq<set<nat>>, k: int)
    requires Valid(s, all) && Within(s, k) && Timeouts(s, knowns)
    ensures |knowns| <= (if k > 0 then k else 0)
    decreases |knowns|
  {
    hide Valid;
    if knowns != [] {
      TimeoutKeeps(s, all, knowns[0]);
      TimeoutNears(s, all, knowns[0], k);
      TimeoutsEnd(OnTimeout(s, knowns[0]), all, knowns[1..], k - 1);
    }
  }

  /** Without further events the timer runs out after at most 12 timeouts. */
  lemma TimerStops(s: Sched, all: set<nat>, knowns: seq<set<nat>>)
    requires Valid(s, all) && Timeouts(s, knowns)
    ensures |knowns| <= RTX_MAX + 2
  {
    TimeoutsEnd(s, all, knowns, RTX_MAX + 2);
  }

  /** Each timeout tells the previous hops of a live record once more; after the tenth
      time the record is gone. */
  lemma RecordAges(s: Sched, all: set<nat>, known: set<nat>, i: nat)
    requires Valid(s, all) && s.armed && i < |s.now| && s.now[i].dpo.Some? && s.now[i].dpo.value in known
    ensures var r, s' := s.now[i], OnTimeout(s, known);
      if r.count + 1 < RTX_MAX then r.(count := r.count + 1) in s'.now else !Has(s'.now + s'.next, r.dpo.value)
  {
    var r, s' := s.now[i], OnTimeout(s, known);
    if r.count + 1 < RTX_MAX {
      AgainKeeps(s.now, known, i);
    } else {
      var again := Again(s.now, known);
      forall j | 0 <= j < |again|
        ensures again[j].dpo != r.dpo
      {
        var k := AgainOrigin(s.now, known, j);
      }
    }
  }

  // ------------------------------------------------------------- the event loop's code

  lemma {:induction false} AgainJoins(p: seq<Retx>, q: seq<Retx>, known: set<nat>)
    ensures Again(p + q, known) == Again(p, known) + Again(q, known)
  {
    if p != [] {
      AgainJoins(p[1..], q, known);
      assert (p + q)[1..] == p[1..] + q;
    } else {
      assert p + q == q;
    }
  }

  /** One record further. */
  lemma AgainNext(q: seq<Retx>, known: set<nat>, k: nat)
    requires k < |q|
    ensures Again(q[..k + 1], known) == Again(q[..k], known) + Again([q[k]], known)
    ensures |Again(q[..k + 1], known)| <= |Again(q, known)|
  {
    AgainJoins(q[..k], [q[k]], known);
    assert q[..k + 1] == q[..k] + [q[k]];
    AgainJoins(q[..k + 1], q[k + 1..], known);
    assert q == q[..k + 1] + q[k + 1..];
  }

  /** Delete an entry from the retransmissions of a slot. */
  method KillIn(slot: array<Retx>, len: nat, d: nat)
    requires len <= slot.Length
    modifies slot
    ensures slot[..len] == Kill(old(slot[..len]), d)
    ensures slot[len..] == old(slot[len..])
  {
    var j := 0;
    while j < len
      invariant 0 <= j <= len
      invariant forall i | 0 <= i < j :: slot[i] == if old(slot[i]).dpo == Some(d) then old(slot[i]).(dpo := None) else old(slot[i])
      invariant forall i | j <= i < slot.Length :: slot[i] == old(slot[i])
    {
      if slot[j].dpo == Some(d) {
        slot[j] := slot[j].(dpo := None);
      }
      j := j + 1;
    }
  }

  method FindIn(slot: array<Retx>, len: nat, d: nat) returns (found: bool)
    requires len <= slot.Length
    ensures found <==> Has(slot[..len], d)
  {
    var j := 0;
    while j < len && slot[j].dpo != Some(d)
      invariant 0 <= j <= len
      invariant forall i | 0 <= i < j :: slot[i].dpo != Some(d)
    {
      j := j + 1;
    }
    assert j < len ==> slot[..len][j].dpo == Some(d);
    return j < len;
  }

  method Append(slot: array<Retx>, n: nat, r: Retx)
    requires n < slot.Length
    modifies slot
    ensures Front(slot, n + 1) == old(Front(slot, n)) + [r]
  {
    slot[n] := r;
  }

  /** What the timeout has done for the records `q`. */
  ghost predicate Told(q: seq<Retx>, known: set<nat>, any: bool, sent: seq<nat>, dropped: seq<nat>) {
    && (any <==> Again(q, known) != [])
    && (forall d: nat :: d in sent <==> d in known && Has(q, d))
    && (forall d: nat :: d in dropped <==> d in known && Retx(Some(d), RTX_MAX - 1) in q)
  }

  lemma ToldNext(q: seq<Retx>, pos: nat, known: set<nat>, any: bool, sent: seq<nat>, dropped: seq<nat>)
    requires pos < |q| && q[pos].count < RTX_MAX && Told(q[..pos], known, any, sent, dropped)
    ensures var r := q[pos]; var again := r.count + 1 < RTX_MAX; var q' := q[..pos + 1];
      if r.dpo.Some? && r.dpo.value in known
      then Told(q', known, any || again, sent + [r.dpo.value], if again then dropped else dropped + [r.dpo.value])
      else Told(q', known, any, sent, dropped)
  {
    hide Again, Has;
    AgainNext(q, known, pos);
    AgainOne(q[pos], known);
    HasNext(q, pos);
    InNext(q, pos);
    var r, q' := q[pos], q[..pos + 1];
    forall d: nat
      ensures Has(q', d) <==> Has(q[..pos], d) || r.dpo == Some(d)
      ensures Retx(Some(d), RTX_MAX - 1) in q' <==> Retx(Some(d), RTX_MAX - 1) in q[..pos] || r == Retx(Some(d), RTX_MAX - 1)
    {
    }
  }

  lemma InNext(q: seq<Retx>, pos: nat)
    requires pos < |q|
    ensures forall r :: r in q[..pos + 1] <==> r in q[..pos] || r == q[pos]
  {
    assert q[..pos + 1] == q[..pos] + [q[pos]];
  }

  /** The loop of the timeout over the current slot. */
  method TellAgain(now: array<Retx>, m: nat, next: array<Retx>, n0: nat, known: set<nat>)
    returns (n: nat, any: bool, sent: seq<nat>, dropped: seq<nat>)
    requires now != next && m <= now.Length && n0 <= next.Length
    requires n0 + |Again(Front(now, m), known)| <= next.Length
    requires forall r | r in Front(now, m) :: r.count < RTX_MAX
    modifies now, next
    ensures n <= next.Length && Front(next, n) == old(Front(next, n0)) + Again(old(Front(now, m)), known)
    ensures Told(old(Front(now, m)), known, any, sent, dropped)
  {
    hide Again, Told;
    ghost var q, q0 := Front(now, m), Front(next, n0);
    n, any, sent, dropped := n0, false, [], [];
    ToldNone(known);
    assert q[..0] == [] && forall i | 0 <= i < m :: now[i] == q[i];
    var pos := 0;
    while pos < m
      invariant 0 <= pos <= m && |Again(q[..pos], known)| <= |Again(q, known)|
      invariant n == n0 + |Again(q[..pos], known)| && Front(next, n) == q0 + Again(q[..pos], known)
      invariant forall i | pos <= i < m :: now[i] == q[i]
      invariant Told(q[..pos], known, any, sent, dropped)
    {
      hide Front;
      assert q[pos] in q;
      ToldNext(q, pos, known, any, sent, dropped);
      AgainNext(q, known, pos);
      AgainOne(q[pos], known);
      var r := now[pos];
      if r.dpo.Some? && r.dpo.value in known {
        sent := sent + [r.dpo.value];
        r := r.(count := r.count + 1);
        now[pos] := r;
        if r.count < RTX_MAX {
          Append(next, n, r);
          n := n + 1;
          any := true;
        } else {
          dropped := dropped + [r.dpo.value];
        }
      }
      pos := pos + 1;
    }
    assert q[..pos] == q;
  }

  lemma ToldMeans(q: seq<Retx>, known: set<nat>, any: bool, sent: seq<nat>, dropped: seq<nat>)
    requires Told(q, known, any, sent, dropped)
    ensures any <==> Again(q, known) != []
    ensures forall d: nat :: d in sent <==> d in known && Has(q, d)
    ensures forall d: nat :: d in dropped <==> d in known && Retx(Some(d), RTX_MAX - 1) in q
  {
  }

  lemma ToldNone(known: set<nat>)
    ensures Told([], known, false, [], []) && Again([], known) == []
  {
  }

  lemma AgainOne(r: Retx, known: set<nat>)
    ensures Again([r], known) == if r.dpo.Some? && r.dpo.value in known && r.count + 1 < RTX_MAX
                                 then [r.(count := r.count + 1)] else []
  {
    assert [r][1..] == [];
  }

  lemma TimeoutFits(s: Sched, all: set<nat>, known: set<nat>)
    requires Valid(s, all) && s.armed && |all| <= NUM_RETX_ENTRIES
    ensures |s.next + Again(s.now, known)| <= NUM_RETX_ENTRIES
    ensures forall r | r in s.now :: r.count < RTX_MAX
  {
    hide Again;
    TimeoutKeeps(s, all, known);
    assert Proper(s.now, all);
  }

  class EventMgr {
    const slots: seq<array<Retx>>
    var len: seq<nat>
    var cur: nat
    var idle: nat
    var armed: bool

    ghost predicate Shaped()
      reads this
    {
      && |slots| == 2 && slots[0] != slots[1]
      && slots[0].Length == NUM_RETX_ENTRIES && slots[1].Length == NUM_RETX_ENTRIES
      && |len| == 2 && len[0] <= NUM_RETX_ENTRIES && len[1] <= NUM_RETX_ENTRIES
      && cur < 2
    }

    ghost function State(): Sched
      reads this, slots
      requires Shaped()
    {
      Sched(Front(slots[cur], len[cur]), Front(slots[1 - cur], len[1 - cur]), idle, armed)
    }

    constructor ()
      ensures Shaped() && State() == INITIAL && fresh(slots[0]) && fresh(slots[1])
    {
      var a := new Retx[NUM_RETX_ENTRIES](_ => Retx(None, 0));
      var b := new Retx[NUM_RETX_ENTRIES](_ => Retx(None, 0));
      slots, len, cur, idle, armed := [a, b], [0, 0], 0, 0, false;
    }

    /** The FACE_NH_SET event for one FIB entry. */
    method NextHopSet(d: nat, ghost all: set<nat>)
      requires Shaped() && Valid(State(), all) && d in all && |all| <= NUM_RETX_ENTRIES
      modifies this, slots[0], slots[1]
      ensures Shaped() && State() == OnNextHopSet(old(State()), d)
    {
      NextHopSetKeeps(State(), all, d);
      hide Valid;
      var now, next := slots[cur], slots[1 - cur];
      KillIn(now, len[cur], d);
      var found := FindIn(next, len[1 - cur], d);
      if !found {
        assert |OnNextHopSet(old(State()), d).next| == len[1 - cur] + 1;
        next[len[1 - cur]] := Retx(Some(d), 0);
        len := len[1 - cur := len[1 - cur] + 1];
      }
      idle := 0;
      armed := true;
    }

    /** The timeout: tell the previous hops of every live record again, move what has
        rounds left to the next slot, give up on the rest, and swap the slots. */
    method Timeout(known: set<nat>, ghost all: set<nat>) returns (sent: seq<nat>, dropped: seq<nat>)
      requires Shaped() && Valid(State(), all) && armed && |all| <= NUM_RETX_ENTRIES
      modifies this, slots[0], slots[1]
      ensures Shaped() && State() == OnTimeout(old(State()), known)
      ensures forall d: nat :: d in sent <==> Sends(old(State()), known, d)
      ensures forall d: nat :: d in dropped <==> Drops(old(State()), known, d)
    {
      hide Valid, Again, Told, Front;
      ghost var s := State();
      TimeoutFits(s, all, known);
      var n, any;
      n, any, sent, dropped := TellAgain(slots[cur], len[cur], slots[1 - cur], len[1 - cur], known);
      ToldMeans(s.now, known, any, sent, dropped);
      idle := if any then 0 else idle + 1;
      len := [0, 0][1 - cur := n];
      cur := 1 - cur;
      armed := idle <= 1;
    }
  }

  lemma HasNext(q: seq<Retx>, k: nat)
    requires k < |q|
    ensures forall d: nat :: Has(q[..k + 1], d) <==> Has(q[..k], d) || q[k].dpo == Some(d)
  {
    forall d: nat
      ensures Has(q[..k + 1], d) <==> Has(q[..k], d) || q[k].dpo == Some(d)
    {
      if Has(q[..k], d) {
        var i :| 0 <= i < |q[..k]| && q[..k][i].dpo == Some(d);
        assert q[..k + 1][i].dpo == Some(d);
      }
      if q[k].dpo == Some(d) {
        assert q[..k + 1][k].dpo == Some(d);
      }
      if Has(q[..k + 1], d) {
        var i :| 0 <= i < |q[..k + 1]| && q[..k + 1][i].dpo == Some(d);
        if i < k {
          assert q[..k][i].dpo == Some(d);
        }
      }
    }
  }
}
