/** How often MAP-Me retransmits: after a new next hop, in exactly ten timeouts, and in the
    last of them it gives up. */
module Rounds {
  import opened Lists
  import opened Retransmit

  /** Records in the next slot have not been told again yet. */
  ghost predicate Fresh(s: Sched) {
    forall i | 0 <= i < |s.next| :: s.next[i].count == 0
  }

  lemma {:induction false} RunFresh(s: Sched, es: seq<Event>)
    requires Fresh(s)
    ensures Fresh(Final(s, es))
    decreases |es|
  {
    if es != [] {
      RunFresh(Handle(s, es[0]), es[1..]);
    }
  }

  /** After `k` timeouts: in the next slot; in the current slot and told again `k - 1`
      times; or in neither. */
  ghost predicate AtRound(s: Sched, d: nat, k: nat) {
    if k == 0 then !Has(s.now, d) && Retx(Some(d), 0) in s.next
    else if k <= RTX_MAX then Retx(Some(d), k - 1) in s.now && !Has(s.next, d)
    else !Has(s.now, d) && !Has(s.next, d)
  }

  /** Nothing but timeouts happens to this FIB entry, and it stays known. */
  predicate Undisturbed(e: Event, d: nat) {
    match e
    case NextHopSet(x) => x != d
    case Other => true
    case PrevHopDeleted => true
    case Timeout(known) => d in known
  }

  lemma SetStarts(s: Sched, d: nat)
    requires Fresh(s)
    ensures AtRound(OnNextHopSet(s, d), d, 0)
  {
    if Has(s.next, d) {
      var i :| 0 <= i < |s.next| && s.next[i].dpo == Some(d);
      assert s.next[i] == Retx(Some(d), 0);
    } else {
      assert Schedule(s.next, d)[|s.next|] == Retx(Some(d), 0);
    }
  }

  lemma HasIn(q: seq<Retx>, r: Retx, d: nat)
    requires r in q && r.dpo == Some(d)
    ensures Has(q, d)
  {
  }

  lemma HasJoined(a: seq<Retx>, b: seq<Retx>, d: nat)
    ensures Has(a + b, d) <==> Has(a, d) || Has(b, d)
  {
    if Has(a, d) {
      var i :| 0 <= i < |a| && a[i].dpo == Some(d);
      assert (a + b)[i].dpo == Some(d);
    }
    if Has(b, d) {
      var i :| 0 <= i < |b| && b[i].dpo == Some(d);
      assert (a + b)[|a| + i].dpo == Some(d);
    }
    if Has(a + b, d) {
      var i :| 0 <= i < |a + b| && (a + b)[i].dpo == Some(d);
      assert i < |a| ==> a[i].dpo == Some(d);
      assert i >= |a| ==> b[i - |a|].dpo == Some(d);
    }
  }

  lemma NoneAgain(q: seq<Retx>, known: set<nat>, d: nat)
    requires !Has(q, d)
    ensures !Has(Again(q, known), d)
  {
    if Has(Again(q, known), d) {
      var j :| 0 <= j < |Again(q, known)| && Again(q, known)[j].dpo == Some(d);
      var i := AgainOrigin(q, known, j);
    }
  }

  lemma OtherSetStays(s: Sched, x: nat, d: nat, k: nat)
    requires AtRound(s, d, k) && x != d
    ensures AtRound(OnNextHopSet(s, x), d, k)
  {
    var now, next := Kill(s.now, x), Schedule(s.next, x);
    if Has(next, d) {
      var i :| 0 <= i < |next| && next[i].dpo == Some(d);
      assert s.next[i].dpo == Some(d);
    }
    if Has(now, d) {
      var i :| 0 <= i < |now| && now[i].dpo == Some(d);
      assert s.now[i].dpo == Some(d);
    }
    if 0 < k <= RTX_MAX {
      var i :| 0 <= i < |s.now| && s.now[i] == Retx(Some(d), k - 1);
      assert now[i] == s.now[i];
    }
  }

  lemma TimeoutTurns(s: Sched, all: set<nat>, known: set<nat>, d: nat, k: nat)
    requires Valid(s, all) && s.armed && AtRound(s, d, k) && d in known
    ensures AtRound(OnTimeout(s, known), d, k + 1)
  {
    hide Valid, Again, Has;
    var again := Again(s.now, known);
    HasJoined(s.next, again, d);
    NoneIn(d);
    if 0 < k <= RTX_MAX {
      var i :| 0 <= i < |s.now| && s.now[i] == Retx(Some(d), k - 1);
      RecordAges(s, all, known, i);
      HasJoined(s.next + again, [], d);
    } else {
      NoneAgain(s.now, known, d);
    }
  }

  lemma NoneIn(d: nat)
    ensures !Has([], d)
  {
  }

  lemma StepTurns(s: Sched, e: Event, all: set<nat>, d: nat, k: nat)
    requires Valid(s, all) && Possible(s, e, all) && AtRound(s, d, k) && Undisturbed(e, d)
    ensures AtRound(Handle(s, e), d, if e.Timeout? then k + 1 else k)
  {
    hide Valid;
    match e {
      case NextHopSet(x) => OtherSetStays(s, x, d, k);
      case Other =>
      case PrevHopDeleted =>
      case Timeout(known) => TimeoutTurns(s, all, known, d, k);
    }
  }

  /** How many timeouts there are. */
  function Count(es: seq<Event>): nat {
    if es == [] then 0 else (if es[0].Timeout? then 1 else 0) + Count(es[1..])
  }

  lemma {:induction false} RunTurns(s: Sched, es: seq<Event>, all: set<nat>, d: nat, k: nat)
    requires Valid(s, all) && Runs(s, es, all) && AtRound(s, d, k) && forall e | e in es :: Undisturbed(e, d)
    ensures AtRound(Final(s, es), d, k + Count(es)) && Valid(Final(s, es), all)
    decreases |es|
  {
    hide Valid, AtRound;
    if es != [] {
      StepTurns(s, es[0], all, d, k);
      HandleKeeps(s, es[0], all);
      RunTurns(Handle(s, es[0]), es[1..], all, d, if es[0].Timeout? then k + 1 else k);
    }
  }

  lemma {:induction false} RunStarts(s: Sched, es: seq<Event>, all: set<nat>, i: nat)
    requires Runs(s, es, all) && i < |es|
    ensures Runs(s, es[..i], all) && Possible(Final(s, es[..i]), es[i], all)
    decreases |es|
  {
    if i > 0 {
      RunStarts(Handle(s, es[0]), es[1..], all, i - 1);
      assert es[..i][1..] == es[1..][..i - 1];
    }
  }

  /** What each round means for the timeout that comes next. */
  lemma RoundSends(s: Sched, all: set<nat>, known: set<nat>, d: nat, k: nat)
    requires Valid(s, all) && AtRound(s, d, k) && d in known
    ensures Sends(s, known, d) <==> 1 <= k <= RTX_MAX
    ensures Drops(s, known, d) <==> k == RTX_MAX
    ensures k <= RTX_MAX ==> s.armed
  {
    if Retx(Some(d), RTX_MAX - 1) in s.now {
      HasIn(s.now, Retx(Some(d), RTX_MAX - 1), d);
    }
    if 1 <= k <= RTX_MAX {
      var i :| 0 <= i < |s.now| && s.now[i] == Retx(Some(d), k - 1);
      assert Live(s.now);
    }
  }

  /** A FIB entry gets a new next hop, after any events, and then nothing but timeouts happens
      to it.  Of these the first does not send updates for it again, the next ten do, the
      last of the ten gives up on it, and no later one sends.  Until then the timer runs. */
  lemma ExactRounds(before: seq<Event>, d: nat, es: seq<Event>, all: set<nat>, i: nat)
    requires Runs(INITIAL, before, all) && d in all && i < |es| && es[i].Timeout?
    requires Runs(OnNextHopSet(Final(INITIAL, before), d), es, all) && forall e | e in es :: Undisturbed(e, d)
    ensures var s := Final(OnNextHopSet(Final(INITIAL, before), d), es[..i]); var k := Count(es[..i]);
      && (Sends(s, es[i].known, d) <==> 1 <= k <= 10)
      && (Drops(s, es[i].known, d) <==> k == 10)
  {
    hide Valid, AtRound, Sends, Drops, Fresh;
    var s0 := Final(INITIAL, before);
    StartsFine(all);
    RunKeeps(INITIAL, before, all);
    RunFresh(INITIAL, before);
    SetStarts(s0, d);
    NextHopSetKeeps(s0, all, d);
    var s1 := OnNextHopSet(s0, d);
    RunStarts(s1, es, all, i);
    RunTurns(s1, es[..i], all, d, 0);
    assert es[i] in es && Undisturbed(es[i], d);
    RoundSends(Final(s1, es[..i]), all, es[i].known, d, Count(es[..i]));
  }

  lemma StartsFine(all: set<nat>)
    ensures Valid(INITIAL, all) && Fresh(INITIAL)
  {
  }

  // -------------------------------------------------------------------------- the timer

  /** From the second round to the last, the timeout before was not idle. */
  ghost predicate Awake(s: Sched, k: nat) {
    && s.armed == (s.idle <= 1)
    && (k <= 1 ==> s.idle <= 1)
    && (2 <= k <= RTX_MAX ==> s.idle == 0)
    && (k == RTX_MAX + 1 ==> s.idle <= 1)
  }

  lemma StepAwake(s: Sched, e: Event, all: set<nat>, d: nat, k: nat)
    requires Valid(s, all) && Possible(s, e, all) && AtRound(s, d, k) && Undisturbed(e, d) && Awake(s, k) && (k == 0 ==> s.idle == 0)
    ensures Awake(Handle(s, e), if e.Timeout? then k + 1 else k)
    ensures k == 0 && !e.Timeout? ==> Handle(s, e).idle == 0
  {
    hide Valid, Again;
    if e.Timeout? && 1 <= k < RTX_MAX {
      var i :| 0 <= i < |s.now| && s.now[i] == Retx(Some(d), k - 1);
      AgainKeeps(s.now, e.known, i);
    }
  }

  lemma {:induction false} RunAwake(s: Sched, es: seq<Event>, all: set<nat>, d: nat, k: nat)
    requires Valid(s, all) && Runs(s, es, all) && AtRound(s, d, k) && forall e | e in es :: Undisturbed(e, d)
    requires Awake(s, k) && (k == 0 ==> s.idle == 0)
    ensures Awake(Final(s, es), k + Count(es))
    decreases |es|
  {
    hide Valid, AtRound, Awake;
    if es != [] {
      StepAwake(s, es[0], all, d, k);
      StepTurns(s, es[0], all, d, k);
      HandleKeeps(s, es[0], all);
      RunAwake(Handle(s, es[0]), es[1..], all, d, if es[0].Timeout? then k + 1 else k);
    }
  }

  /** The timer does not stop before the twelfth timeout, whatever else happens; without other
      events it stops then (`Retransmit.TimerStops`). */
  lemma TimerLasts(before: seq<Event>, d: nat, es: seq<Event>, all: set<nat>)
    requires Runs(INITIAL, before, all) && d in all && Count(es) <= 11
    requires Runs(OnNextHopSet(Final(INITIAL, before), d), es, all) && forall e | e in es :: Undisturbed(e, d)
    ensures Final(OnNextHopSet(Final(INITIAL, before), d), es).armed
  {
    hide Valid, AtRound, Fresh;
    var s0 := Final(INITIAL, before);
    StartsFine(all);
    RunKeeps(INITIAL, before, all);
    RunFresh(INITIAL, before);
    SetStarts(s0, d);
    NextHopSetKeeps(s0, all, d);
    RunAwake(OnNextHopSet(s0, d), es, all, d, 0);
  }

  /** Any event but an acknowledgement starts the timer and keeps it running over the next
      timeout.  An acknowledgement neither starts nor stops it.  With no record left the timer
      stops at the second timeout after such an event. */
  lemma EventsWake(s: Sched, all: set<nat>, e: Event, known: set<nat>, known': set<nat>)
    requires Valid(s, all) && (e.NextHopSet? || e.Other?)
    ensures Handle(s, e).armed && OnTimeout(Handle(s, e), known).armed
    ensures e.Other? && !Live(s.now) && s.next == [] ==> !OnTimeout(OnTimeout(Handle(s, e), known), known').armed
    ensures OnPrevHopDeleted(s) == s.(armed := s.idle <= 1)
  {
    if !Live(s.now) {
      NothingAgain(s.now, known);
    }
  }

  lemma {:induction false} NothingAgain(q: seq<Retx>, known: set<nat>)
    requires !Live(q)
    ensures Again(q, known) == []
  {
    if q != [] {
      assert forall i | 0 <= i < |q[1..]| :: q[1..][i] == q[i + 1];
      NothingAgain(q[1..], known);
    }
  }
}
