/** The next-hop array of a FIB entry, which holds next hops at its front and previous
    hops (the TFIB) at its back, and the locks it takes on faces
    (hicn-plugin/src/strategy_dpo_ctx.c, mapme.h, mapme_ctrl_node.c, route.c). */
module NextHops {
  import opened Lists
  import MapMe

  const NHOPS_MAX := 10

  type Face = nat

  /** What an unused place holds. */
  const INVALID: Face := 0xffff_ffff

  function Snoc(q: seq<Face>, f: Face): seq<Face> {
    q + [f]
  }

  function Cons(f: Face, q: seq<Face>): seq<Face> {
    [f] + q
  }

  /** The last element takes the place of a deleted one. */
  function SwapRemove(q: seq<Face>, i: nat): seq<Face>
    requires i < |q|
  {
    if i == |q| - 1 then q[..i] else q[..i] + [q[|q| - 1]] + q[i + 1..|q| - 1]
  }

  function RemoveAt(q: seq<Face>, i: nat): seq<Face>
    requires i < |q|
  {
    q[..i] + q[i + 1..]
  }

  lemma SwapRemoved(q: seq<Face>, i: nat)
    requires i < |q| && NoDuplicates(q)
    ensures NoDuplicates(SwapRemove(q, i)) && ToSet(SwapRemove(q, i)) == ToSet(q) - {q[i]}
  {
    var r := SwapRemove(q, i);
    assert forall k | 0 <= k < |r| :: r[k] == if k == i then q[|q| - 1] else q[k];
    forall f
      ensures f in r <==> f in q && f != q[i]
    {
      if f in q && f != q[i] {
        var k :| 0 <= k < |q| && q[k] == f;
        assert r[if k == |q| - 1 then i else k] == f;
      }
    }
  }

  lemma SwapRemovedBag(q: seq<Face>, i: nat)
    requires i < |q|
    ensures multiset(q) == multiset(SwapRemove(q, i)) + multiset{q[i]}
  {
    if i == |q| - 1 {
      assert q == q[..i] + [q[i]];
    } else {
      assert q == q[..i] + [q[i]] + q[i + 1..|q| - 1] + [q[|q| - 1]];
    }
  }

  lemma Removed(q: seq<Face>, i: nat)
    requires i < |q| && NoDuplicates(q)
    ensures NoDuplicates(RemoveAt(q, i)) && ToSet(RemoveAt(q, i)) == ToSet(q) - {q[i]}
  {
    var r := RemoveAt(q, i);
    assert forall k | 0 <= k < |r| :: r[k] == if k < i then q[k] else q[k + 1];
    forall f
      ensures f in r <==> f in q && f != q[i]
    {
      if f in q && f != q[i] {
        var k :| 0 <= k < |q| && q[k] == f;
        assert r[if k < i then k else k - 1] == f;
      }
    }
  }

  lemma RemovedBag(q: seq<Face>, i: nat)
    requires i < |q|
    ensures multiset(q) == multiset(RemoveAt(q, i)) + multiset{q[i]}
  {
    assert q == q[..i] + [q[i]] + q[i + 1..];
  }

  // ------------------------------------------------------------------------- locks

  function Lock(locks: multiset<Face>, f: Face): multiset<Face> {
    locks + multiset{f}
  }

  function Unlock(locks: multiset<Face>, f: Face): multiset<Face> {
    locks - multiset{f}
  }

  /** There is one lock for each face stored, besides those of `others`. */
  ghost predicate Booked(locks: multiset<Face>, others: multiset<Face>, nexts: seq<Face>, prevs: seq<Face>) {
    && NoDuplicates(nexts) && NoDuplicates(prevs)
    && locks == others + multiset(nexts) + multiset(prevs)
  }

  lemma BookNext(locks: multiset<Face>, others: multiset<Face>, nexts: seq<Face>, prevs: seq<Face>, f: Face)
    requires Booked(locks, others, nexts, prevs) && f !in nexts
    ensures Booked(Lock(locks, f), others, Snoc(nexts, f), prevs)
  {
  }

  lemma BookPrev(locks: multiset<Face>, others: multiset<Face>, nexts: seq<Face>, prevs: seq<Face>, f: Face)
    requires Booked(locks, others, nexts, prevs) && f !in prevs
    ensures Booked(Lock(locks, f), others, nexts, Cons(f, prevs))
  {
  }

  lemma UnbookNext(locks: multiset<Face>, others: multiset<Face>, nexts: seq<Face>, prevs: seq<Face>, i: nat)
    requires Booked(locks, others, nexts, prevs) && i < |nexts|
    ensures nexts[i] in locks && At(nexts, nexts[i]) == i
    ensures ToSet(SwapRemove(nexts, i)) == ToSet(nexts) - {nexts[i]}
    ensures Booked(Unlock(locks, nexts[i]), others, SwapRemove(nexts, i), prevs)
  {
    SwapRemovedBag(nexts, i);
    SwapRemoved(nexts, i);
  }

  lemma UnbookPrev(locks: multiset<Face>, others: multiset<Face>, nexts: seq<Face>, prevs: seq<Face>, i: nat)
    requires Booked(locks, others, nexts, prevs) && i < |prevs|
    ensures prevs[i] in locks && At(prevs, prevs[i]) == i
    ensures ToSet(RemoveAt(prevs, i)) == ToSet(prevs) - {prevs[i]}
    ensures Booked(Unlock(locks, prevs[i]), others, nexts, RemoveAt(prevs, i))
  {
    RemovedBag(prevs, i);
    Removed(prevs, i);
  }

  /** Locks held besides one for each listed face. */
  ghost function With(base: multiset<Face>, left: seq<Face>): multiset<Face> {
    base + multiset(left)
  }

  lemma WithNone(base: multiset<Face>)
    ensures With(base, []) == base
  {
  }

  lemma BookOther(locks: multiset<Face>, base: multiset<Face>, left: seq<Face>, nexts: seq<Face>, prevs: seq<Face>, f: Face)
    requires Booked(locks, With(base, left), nexts, prevs)
    ensures Booked(Lock(locks, f), With(base, left + [f]), nexts, prevs)
  {
  }

  lemma UnbookOther(locks: multiset<Face>, base: multiset<Face>, left: seq<Face>, nexts: seq<Face>, prevs: seq<Face>, k: nat)
    requires Booked(locks, With(base, left), nexts, prevs) && k < |left|
    ensures Booked(Unlock(locks, left[k]), With(base, SwapRemove(left, k)), nexts, prevs)
  {
    SwapRemovedBag(left, k);
  }

  lemma UnbookFirst(locks: multiset<Face>, base: multiset<Face>, left: seq<Face>, nexts: seq<Face>, prevs: seq<Face>)
    requires Booked(locks, With(base, left), nexts, prevs) && 0 < |left|
    ensures Booked(Unlock(locks, left[0]), With(base, left[1..]), nexts, prevs)
  {
    assert left == [left[0]] + left[1..];
  }

  // ----------------------------------------------------------------- reconciliation

  /** The desired faces are those still listed and those kept. */
  ghost predicate Split(desired: seq<Face>, faces: seq<Face>, kept: seq<Face>) {
    ToSet(desired) == ToSet(faces) + ToSet(kept)
  }

  lemma SplitNone(desired: seq<Face>)
    ensures Split(desired, desired, [])
  {
  }

  lemma SplitMore(desired: seq<Face>, faces: seq<Face>, nexts: seq<Face>, i: nat, k: nat)
    requires i < |nexts| && k < |faces| && faces[k] == nexts[i] && Split(desired, faces, nexts[..i])
    ensures Split(desired, SwapRemove(faces, k), nexts[..i + 1])
  {
    assert nexts[..i + 1] == nexts[..i] + [nexts[i]];
    SwapRemovedBag(faces, k);
    var r := SwapRemove(faces, k);
    assert forall f :: f in faces <==> f in multiset(faces);
    assert forall f :: f in r <==> f in multiset(r);
    assert ToSet(faces) == ToSet(r) + {nexts[i]};
  }

  /** Deleting the next hop at `i` leaves those before it. */
  lemma DeletedAfter(locks: multiset<Face>, others: multiset<Face>, nexts: seq<Face>, prevs: seq<Face>, i: nat)
    requires Booked(locks, others, nexts, prevs) && i < |nexts|
    ensures At(nexts, nexts[i]) == i
    ensures i <= |SwapRemove(nexts, i)| && SwapRemove(nexts, i)[..i] == nexts[..i]
  {
  }

  /** A desired face that is not a next hop has room. */
  lemma SplitAdd(locks: multiset<Face>, others: multiset<Face>, nexts: seq<Face>, prevs: seq<Face>, desired: seq<Face>, left: seq<Face>)
    requires Booked(locks, others, nexts, prevs) && Split(desired, left, nexts) && left != []
    ensures left[0] in nexts ==> Split(desired, left[1..], nexts)
    ensures left[0] !in nexts ==> |nexts| < |ToSet(desired)| && Split(desired, left[1..], Snoc(nexts, left[0]))
  {
    assert left == [left[0]] + left[1..];
    assert ToSet(left) == {left[0]} + ToSet(left[1..]);
    SetSize(nexts);
    if left[0] !in nexts {
      SubsetSize(ToSet(nexts) + {left[0]}, ToSet(desired));
    }
  }

  lemma SplitDone(desired: seq<Face>, nexts: seq<Face>)
    requires Split(desired, [], nexts)
    ensures ToSet(nexts) == ToSet(desired)
  {
  }

  /** Each face's locks changed by whether it is a next hop now, less whether it was. */
  ghost predicate LocksFollow(before: multiset<Face>, after: multiset<Face>, was: seq<Face>, now: seq<Face>) {
    forall f: Face :: after[f] + (if f in was then 1 else 0) == before[f] + (if f in now then 1 else 0)
  }

  lemma {:induction false} CountOnce(q: seq<Face>, f: Face)
    requires NoDuplicates(q)
    ensures multiset(q)[f] == if f in q then 1 else 0
  {
    if q != [] {
      var n := |q| - 1;
      CountOnce(q[..n], f);
      assert q == q[..n] + [q[n]];
    }
  }

  lemma LocksMoved(before: multiset<Face>, after: multiset<Face>, others: multiset<Face>, was: seq<Face>, now: seq<Face>, prevs: seq<Face>)
    requires Booked(before, others, was, prevs) && Booked(after, others, now, prevs)
    ensures LocksFollow(before, after, was, now)
  {
    forall f: Face
      ensures after[f] + (if f in was then 1 else 0) == before[f] + (if f in now then 1 else 0)
    {
      CountOnce(now, f);
      CountOnce(was, f);
    }
  }

  method Search(faces: seq<Face>, f: Face) returns (k: nat)
    ensures k <= |faces|
    ensures k < |faces| ==> faces[k] == f
    ensures k == |faces| <==> f !in faces
  {
    k := 0;
    while k < |faces| && faces[k] != f
      invariant k <= |faces| && f !in faces[..k]
    {
      k := k + 1;
    }
  }

  // ------------------------------------------------------------------ previous hops

  /** Record a previous hop if it is new and fewer than `cap` are recorded. */
  function Push(prevs: seq<Face>, f: Face, cap: nat): seq<Face> {
    if f in prevs || |prevs| >= cap then prevs else Cons(f, prevs)
  }

  /** Record a list of previous hops in turn. */
  function PushAll(prevs: seq<Face>, q: seq<Face>, cap: nat): seq<Face> {
    if q == [] then prevs else Push(PushAll(prevs, q[..|q| - 1], cap), q[|q| - 1], cap)
  }

  lemma PushFull(prevs: seq<Face>, f: Face, cap: nat)
    requires f !in prevs && |prevs| >= cap
    ensures Push(prevs, f, cap) == prevs
  {
  }

  lemma PushNone(prevs: seq<Face>, q: seq<Face>, cap: nat)
    ensures PushAll(prevs, q[..0], cap) == prevs
  {
  }

  lemma PushNext(prevs: seq<Face>, q: seq<Face>, i: nat, cap: nat)
    requires i < |q|
    ensures PushAll(prevs, q[..i + 1], cap) == Push(PushAll(prevs, q[..i], cap), q[i], cap)
  {
    assert q[..i + 1][..i] == q[..i];
  }

  lemma PrevsSize(locks: multiset<Face>, others: multiset<Face>, nexts: seq<Face>, prevs: seq<Face>)
    requires Booked(locks, others, nexts, prevs)
    ensures |ToSet(prevs)| == |prevs|
  {
    SetSize(prevs);
  }

  lemma OneSet(f: Face)
    ensures ToSet([f]) == {f}
  {
  }

  lemma PushSet(prevs: seq<Face>, f: Face, cap: nat)
    requires |prevs| <= cap
    ensures NoDuplicates(prevs) ==> NoDuplicates(Push(prevs, f, cap))
    ensures |Push(prevs, f, cap)| <= cap
    ensures ToSet(prevs) <= ToSet(Push(prevs, f, cap)) <= ToSet(prevs) + {f}
    ensures f in ToSet(prevs) || |prevs| < cap ==> ToSet(Push(prevs, f, cap)) == ToSet(prevs) + {f}
  {
  }

  /** What is recorded is no more than what was listed, and all of it exactly if all
      together fit. */
  lemma {:induction false} PushAllRecords(prevs: seq<Face>, q: seq<Face>, cap: nat)
    requires NoDuplicates(prevs) && |prevs| <= cap
    ensures var r := PushAll(prevs, q, cap); NoDuplicates(r) && |r| <= cap
    ensures ToSet(prevs) <= ToSet(PushAll(prevs, q, cap)) <= ToSet(prevs) + ToSet(q)
    ensures ToSet(PushAll(prevs, q, cap)) == ToSet(prevs) + ToSet(q) <==> |ToSet(prevs) + ToSet(q)| <= cap
  {
    hide Push, NoDuplicates;
    var r := PushAll(prevs, q, cap);
    var all := ToSet(prevs) + ToSet(q);
    if q == [] {
      SetSize(prevs);
      assert all == ToSet(prevs);
    } else {
      var f := q[|q| - 1];
      var r' := PushAll(prevs, q[..|q| - 1], cap);
      PushAllRecords(prevs, q[..|q| - 1], cap);
      PushSet(r', f, cap);
      LastSet(q);
      var all' := ToSet(prevs) + ToSet(q[..|q| - 1]);
      assert all == all' + {f};
      SetSize(r);
      if |all| <= cap {
        SubsetSize(all', all);
        SetSize(r');
        SubsetSize(ToSet(r') + {f}, all);
        assert f in ToSet(r') || |r'| < cap;
      }
    }
  }

  /** With room for as many again, all are recorded. */
  lemma AllMove(prevs: seq<Face>, q: seq<Face>, cap: nat)
    requires NoDuplicates(prevs) && NoDuplicates(q) && |prevs| + |q| <= cap
    ensures ToSet(PushAll(prevs, q, cap)) == ToSet(prevs) + ToSet(q)
  {
    PushAllRecords(prevs, q, cap);
    SetSize(prevs);
    SetSize(q);
  }

  /** The next hops that become previous hops. */
  ghost function Moved(prevs: seq<Face>, q: seq<Face>, cap: nat): set<Face> {
    ToSet(PushAll(prevs, q, cap)) * ToSet(q)
  }

  lemma MovedAre(locks: multiset<Face>, others: multiset<Face>, nexts: seq<Face>, prevs: seq<Face>, stop: nat, cap: nat)
    requires Booked(locks, others, nexts, prevs) && stop <= |nexts| && |prevs| <= cap
    ensures var q := nexts[..stop];
      && Moved(prevs, q, cap) <= ToSet(q) && ToSet(PushAll(prevs, q, cap)) == ToSet(prevs) + Moved(prevs, q, cap)
      && (stop == 0 ==> PushAll(prevs, q, cap) == prevs)
      && (|prevs| + stop <= cap ==> Moved(prevs, q, cap) == ToSet(q))
  {
    PushAllRecords(prevs, nexts[..stop], cap);
    if |prevs| + stop <= cap {
      AllMove(prevs, nexts[..stop], cap);
    }
  }

  // -------------------------------------------------------------------- array loops

  /** The last `t` elements of an array. */
  ghost function Back(a: array<Face>, t: nat): (q: seq<Face>)
    requires t <= a.Length
    reads a
    ensures |q| == t
  {
    a[a.Length - t..]
  }

  /** The position of a face among the first `n`, or `n`. */
  method FindFront(a: array<Face>, n: nat, f: Face) returns (i: nat)
    requires n <= a.Length
    ensures i <= n
    ensures i < n ==> Front(a, n)[i] == f
    ensures i == n <==> f !in Front(a, n)
  {
    i := 0;
    while i < n && a[i] != f
      invariant i <= n && forall k | 0 <= k < i :: a[k] != f
    {
      i := i + 1;
    }
    assert i < n ==> a[..n][i] == f;
  }

  /** The position of a face among the last `t`, or the array's end. */
  method FindBack(a: array<Face>, t: nat, f: Face) returns (i: nat)
    requires t <= a.Length
    ensures a.Length - t <= i <= a.Length
    ensures i < a.Length ==> Back(a, t)[i - (a.Length - t)] == f
    ensures i == a.Length <==> f !in Back(a, t)
  {
    i := a.Length - t;
    while i < a.Length && a[i] != f
      invariant a.Length - t <= i <= a.Length && forall k | a.Length - t <= k < i :: a[k] != f
    {
      i := i + 1;
    }
    assert i < a.Length ==> a[a.Length - t..][i - (a.Length - t)] == f;
  }

  /** Store a face after the first `n`; the last `t` stay. */
  method PutFront(a: array<Face>, n: nat, t: nat, f: Face)
    requires n + t < a.Length
    modifies a
    ensures Front(a, n + 1) == Snoc(old(Front(a, n)), f)
    ensures Back(a, t) == old(Back(a, t))
  {
    a[n] := f;
  }

  /** Store a face before the last `t`; the first `n` stay. */
  method PutBack(a: array<Face>, n: nat, t: nat, f: Face)
    requires n + t < a.Length
    modifies a
    ensures Back(a, t + 1) == Cons(f, old(Back(a, t)))
    ensures Front(a, n) == old(Front(a, n))
  {
    a[a.Length - t - 1] := f;
  }

  /** Put the last of the first `n` elements in the place of the one at `i`; the last
      `t` stay. */
  method TakeOut(a: array<Face>, n: nat, t: nat, i: nat)
    requires i < n && n + t <= a.Length
    modifies a
    ensures Front(a, n - 1) == SwapRemove(old(Front(a, n)), i)
    ensures Back(a, t) == old(Back(a, t))
  {
    hide SwapRemove;
    a[i] := a[n - 1];
    a[n - 1] := INVALID;
    IsSwapRemove(old(Front(a, n)), i, Front(a, n - 1));
  }

  lemma IsSwapRemove(q: seq<Face>, i: nat, r: seq<Face>)
    requires i < |q| && |r| == |q| - 1
    requires forall j | 0 <= j < |r| :: r[j] == if j == i then q[|q| - 1] else q[j]
    ensures r == SwapRemove(q, i)
  {
    var w := SwapRemove(q, i);
    assert |w| == |r| && forall j | 0 <= j < |r| :: w[j] == r[j];
  }

  /** Move the elements from `start` up to before `pos` up by one. */
  method Shift(a: array<Face>, start: nat, pos: nat)
    requires start <= pos < a.Length
    modifies a
    ensures forall j | start < j <= pos :: a[j] == old(a[j - 1])
    ensures forall j | 0 <= j < start || pos < j < a.Length :: a[j] == old(a[j])
  {
    var k := pos;
    while k > start
      invariant start <= k <= pos
      invariant forall j | k < j <= pos :: a[j] == old(a[j - 1])
      invariant forall j | 0 <= j < k || pos < j < a.Length :: a[j] == old(a[j])
    {
      a[k] := a[k - 1];
      k := k - 1;
    }
  }

  lemma IsRemoveAt(q: seq<Face>, p: nat, r: seq<Face>)
    requires p < |q| && |r| == |q| - 1
    requires forall j | 0 <= j < p :: r[j] == q[j]
    requires forall j | p <= j < |r| :: r[j] == q[j + 1]
    ensures r == RemoveAt(q, p)
  {
    assert RemoveAt(q, p) == r;
  }

  /** Clear the element at `pos` and move those before it among the last `t` up by
      one; the first `n` stay. */
  method MoveUp(a: array<Face>, n: nat, t: nat, pos: nat)
    requires n + t <= a.Length && a.Length - t <= pos < a.Length
    modifies a
    ensures Front(a, n) == old(Front(a, n))
    ensures Back(a, t - 1) == RemoveAt(old(Back(a, t)), pos - (a.Length - t))
  {
    hide RemoveAt;
    a[pos] := INVALID;
    Shift(a, a.Length - t, pos);
    IsRemoveAt(old(Back(a, t)), pos - (a.Length - t), Back(a, t - 1));
  }

  /** Where a face is. */
  ghost function At(q: seq<Face>, f: Face): (i: nat)
    requires f in q
    ensures i < |q| && q[i] == f
  {
    var i :| 0 <= i < |q| && q[i] == f;
    i
  }

  class DpoCtx {
    const nextHops: array<Face>
    var entryCount: nat
    var tfibCount: nat
    var sn: nat
    /** All locks on faces, one occurrence per lock; `others` are those not taken by
        this entry. */
    var locks: multiset<Face>
    ghost var others: multiset<Face>

    ghost predicate Fits()
      reads this
    {
      nextHops.Length == NHOPS_MAX && entryCount + tfibCount <= NHOPS_MAX
    }

    /** The next hops: the front of the array. */
    ghost function Nexts(): seq<Face>
      reads this, nextHops
      requires Fits()
    {
      Front(nextHops, entryCount)
    }

    /** The previous hops: the back of the array. */
    ghost function Prevs(): seq<Face>
      reads this, nextHops
      requires Fits()
    {
      Back(nextHops, tfibCount)
    }

    /** No face twice in either part, and one lock for each face stored. */
    ghost predicate Valid()
      reads this, nextHops
    {
      Fits() && Booked(locks, others, Nexts(), Prevs())
    }

    /** An entry without next hops; `held` are the locks others have. */
    constructor (held: multiset<Face>)
      ensures Valid() && fresh(nextHops) && sn == 0
      ensures Nexts() == [] && Prevs() == [] && locks == others == held
    {
      nextHops := new Face[NHOPS_MAX](_ => INVALID);
      entryCount, tfibCount, sn := 0, 0, 0;
      locks, others := held, held;
    }

    /** Add a next hop that is not one yet.  Room for it is the caller's business: the
        check against the array's size does not see the previous hops. */
    method AddNh(nh: Face) returns (added: bool)
      requires Valid() && (nh in Nexts() || entryCount + tfibCount < NHOPS_MAX)
      modifies this`entryCount, this`locks, nextHops
      ensures Valid() && Prevs() == old(Prevs())
      ensures added <==> nh !in old(Nexts())
      ensures Nexts() == if added then Snoc(old(Nexts()), nh) else old(Nexts())
    {
      hide Booked, NoDuplicates, At, SwapRemove, RemoveAt, Lock, Unlock, Snoc, Cons, Front, Back;
      var i := FindFront(nextHops, entryCount, nh);
      if i < entryCount {
        return false;
      }
      BookNext(locks, others, Nexts(), Prevs(), nh);
      var n := entryCount;
      locks := Lock(locks, nh);
      entryCount := n + 1;
      PutFront(nextHops, n, tfibCount, nh);
      return true;
    }

    /** Delete a next hop; the last one takes its place. */
    method DelNh(face: Face) returns (found: bool)
      requires Valid()
      modifies this`entryCount, this`locks, nextHops
      ensures Valid() && Prevs() == old(Prevs())
      ensures found <==> face in old(Nexts())
      ensures entryCount == if found then old(entryCount) - 1 else old(entryCount)
      ensures !found ==> Nexts() == old(Nexts())
      ensures found ==> var i := At(old(Nexts()), face); Nexts() == SwapRemove(old(Nexts()), i)
      ensures ToSet(Nexts()) == ToSet(old(Nexts())) - {face}
    {
      hide Booked, NoDuplicates, At, SwapRemove, RemoveAt, Lock, Unlock, Snoc, Cons, Front, Back;
      var i := FindFront(nextHops, entryCount, face);
      if i == entryCount {
        return false;
      }
      UnbookNext(locks, others, Nexts(), Prevs(), i);
      locks := Unlock(locks, face);
      TakeOut(nextHops, entryCount, tfibCount, i);
      entryCount := entryCount - 1;
      return true;
    }

    /** Add a previous hop, unless it is one already or the array is full. */
    method TfibAdd(face: Face) returns (ok: bool)
      requires Valid()
      modifies this`tfibCount, this`locks, nextHops
      ensures Valid() && Nexts() == old(Nexts())
      ensures ok <==> face in old(Prevs()) || entryCount + old(tfibCount) < NHOPS_MAX
      ensures Prevs() == Push(old(Prevs()), face, NHOPS_MAX - entryCount)
    {
      hide Booked, NoDuplicates, At, SwapRemove, RemoveAt, Lock, Unlock, Snoc, Cons, Front, Back;
      var pos := NHOPS_MAX - tfibCount;
      var i := FindBack(nextHops, tfibCount, face);
      if i < NHOPS_MAX {
        return true;
      }
      if pos <= entryCount {
        return false;
      }
      BookPrev(locks, others, Nexts(), Prevs(), face);
      PutBack(nextHops, entryCount, tfibCount, face);
      tfibCount := tfibCount + 1;
      locks := Lock(locks, face);
      return true;
    }

    /** Delete a previous hop; those before it move up. */
    method TfibDel(face: Face) returns (found: bool)
      requires Valid()
      modifies this`tfibCount, this`locks, nextHops
      ensures Valid() && Nexts() == old(Nexts())
      ensures found <==> face in old(Prevs())
      ensures tfibCount == if found then old(tfibCount) - 1 else old(tfibCount)
      ensures !found ==> Prevs() == old(Prevs())
      ensures found ==> var i := At(old(Prevs()), face); Prevs() == RemoveAt(old(Prevs()), i)
      ensures ToSet(Prevs()) == ToSet(old(Prevs())) - {face}
    {
      hide Booked, NoDuplicates, At, SwapRemove, RemoveAt, Lock, Unlock, Snoc, Cons, Front, Back;
      var start := NHOPS_MAX - tfibCount;
      var pos := FindBack(nextHops, tfibCount, face);
      if pos == NHOPS_MAX {
        return false;
      }
      ghost var i := pos - start;
      UnbookPrev(locks, others, Nexts(), Prevs(), i);
      locks := Unlock(locks, face);
      MoveUp(nextHops, entryCount, tfibCount, pos);
      tfibCount := tfibCount - 1;
      return true;
    }

    /** The loop of an update that moves the next hops before `stop` to the TFIB, where
        `stop` is where the comparison with the ingress face ends it. */
    method MoveToTfib(stop: nat)
      requires Valid() && stop <= entryCount
      modifies this`tfibCount, this`locks, nextHops
      ensures Valid() && Nexts() == old(Nexts())
      ensures Prevs() == PushAll(old(Prevs()), Nexts()[..stop], NHOPS_MAX - entryCount)
    {
      hide Booked, NoDuplicates, Push, PushAll;
      PushNone(Prevs(), Nexts(), NHOPS_MAX - entryCount);
      var pos := 0;
      while pos < stop
        invariant pos <= stop <= entryCount
        invariant Valid() && Nexts() == old(Nexts())
        invariant Prevs() == PushAll(old(Prevs()), Nexts()[..pos], NHOPS_MAX - entryCount)
      {
        PushNext(old(Prevs()), Nexts(), pos, NHOPS_MAX - entryCount);
        assert nextHops[pos] == Nexts()[pos];
        var _ := TfibAdd(nextHops[pos]);
        pos := pos + 1;
      }
    }

    /** Replace all next hops by one. */
    method NhSet(face: Face)
      requires Valid() && (entryCount > 0 || tfibCount < NHOPS_MAX)
      modifies this`entryCount, this`locks, nextHops
      ensures Valid() && Prevs() == old(Prevs())
      ensures Nexts() == [face]
    {
      hide Booked, NoDuplicates, SwapRemove, ToSet;
      var n := entryCount;
      for i := 0 to n
        invariant entryCount == n - i
        invariant Valid() && Prevs() == old(Prevs())
      {
        assert nextHops[0] == Nexts()[0];
        var _ := DelNh(nextHops[0]);
      }
      var _ := AddNh(face);
    }

    /** This entry is the node `fib` of the protocol's network. */
    ghost predicate Shows(fib: MapMe.Fib)
      reads this, nextHops
    {
      && Fits()
      && fib.sn == sn && fib.next == ToSet(Nexts()) && fib.prev == ToSet(Prevs())
    }

    /** An update with a higher sequence number. */
    method NewerUpdate(from: Face, seqno: nat, stop: nat) returns (ghost moved: set<Face>)
      requires Valid() && stop <= entryCount && (entryCount > 0 || tfibCount < NHOPS_MAX || from in Prevs())
      modifies this`sn, this`entryCount, this`tfibCount, this`locks, nextHops
      ensures Valid() && sn == seqno && ToSet(Nexts()) == {from}
      ensures ToSet(Prevs()) == ToSet(old(Prevs())) - {from} + moved
      ensures moved <= ToSet(old(Nexts()[..stop]))
      ensures old(entryCount + stop + tfibCount) <= NHOPS_MAX ==> moved == ToSet(old(Nexts()[..stop]))
    {
      hide Booked, NoDuplicates, SwapRemove, RemoveAt, Push, PushAll, Moved, ToSet, At, Front, Back, Snoc, Cons;
      sn := seqno;
      var _ := TfibDel(from);
      moved := Moved(Prevs(), Nexts()[..stop], NHOPS_MAX - entryCount);
      MovedAre(locks, others, Nexts(), Prevs(), stop, NHOPS_MAX - entryCount);
      MoveToTfib(stop);
      NhSet(from);
      OneSet(from);
    }

    /** An update with the same one. */
    method EqualUpdate(from: Face)
      requires Valid() && (from in Nexts() || from in Prevs() || entryCount + tfibCount < NHOPS_MAX)
      modifies this`entryCount, this`tfibCount, this`locks, nextHops
      ensures Valid() && ToSet(Nexts()) == ToSet(old(Nexts())) + {from}
      ensures ToSet(Prevs()) == ToSet(old(Prevs())) - {from}
    {
      hide Booked, NoDuplicates, SwapRemove, RemoveAt, At, Front, Back;
      var _ := TfibDel(from);
      var _ := AddNh(from);
    }

    /** An update with a lower one; in a full array it leaves no trace. */
    method OlderUpdate(from: Face)
      requires Valid()
      modifies this`tfibCount, this`locks, nextHops
      ensures Valid() && Nexts() == old(Nexts())
      ensures ToSet(Prevs()) == ToSet(old(Prevs()))
                                + if from in old(Prevs()) || entryCount + old(tfibCount) < NHOPS_MAX then {from} else {}
    {
      hide Booked, NoDuplicates, Push, Front, Back;
      PushSet(Prevs(), from, NHOPS_MAX - entryCount);
      if from !in Prevs() && entryCount + tfibCount == NHOPS_MAX {
        PushFull(Prevs(), from, NHOPS_MAX - entryCount);
      }
      var _ := TfibAdd(from);
    }

    /** There is a place for the ingress face as a next hop, where it becomes one. */
    ghost predicate HasPlace(from: Face, seqno: nat)
      reads this, nextHops
      requires Fits()
    {
      || from in Prevs() || entryCount + tfibCount < NHOPS_MAX
      || (seqno > sn && entryCount > 0) || (seqno == sn && from in Nexts()) || seqno < sn
    }

    /** An Interest Update: the array does what the protocol's step does with the next
        hops that could be moved.  Only an outdated update is lost on a full array. */
    method ProcessUpdate(from: Face, seqno: nat, stop: nat, ghost fib: MapMe.Fib, ghost now: nat) returns (ghost moved: set<Face>)
      requires Valid() && Shows(fib) && stop <= entryCount && HasPlace(from, seqno)
      modifies this`sn, this`entryCount, this`tfibCount, this`locks, nextHops
      ensures Valid() && moved <= fib.next
      ensures old(entryCount + stop + tfibCount) <= NHOPS_MAX ==> moved == ToSet(old(Nexts()[..stop]))
      ensures if seqno < fib.sn && from !in fib.prev && old(entryCount + tfibCount) == NHOPS_MAX then Shows(fib)
              else Shows(MapMe.OnUpdate(fib, from, seqno, moved, now))
    {
      hide Booked, NoDuplicates, SwapRemove, RemoveAt, Push, PushAll, At, Front, Back, Snoc, Cons;
      moved := ToSet(Nexts()[..stop]);
      if seqno > sn {
        moved := NewerUpdate(from, seqno, stop);
      } else if seqno == sn {
        EqualUpdate(from);
      } else {
        OlderUpdate(from);
      }
    }

    /** An acknowledgement. */
    method ProcessAck(from: Face, seqno: nat, ghost fib: MapMe.Fib)
      requires Valid() && Shows(fib)
      modifies this`tfibCount, this`locks, nextHops
      ensures Valid()
      ensures Shows(MapMe.OnAck(fib, from, seqno))
    {
      hide Booked, NoDuplicates, RemoveAt, Front, Back;
      if seqno >= sn {
        var _ := TfibDel(from);
      }
    }

    /** Whom `hicn_mapme_send_updates` sends to: all previous hops, or only the one that was
        recorded last.  For that one the code reads the array where it has an element
        only if there is a previous hop. */
    method Targets(all: bool) returns (faces: seq<Face>)
      requires Valid() && (all || tfibCount > 0)
      ensures faces == if all then Prevs() else Prevs()[..1]
      ensures NHOPS_MAX - tfibCount < nextHops.Length <==> tfibCount > 0
    {
      var last := NHOPS_MAX - tfibCount;
      faces := [];
      if all {
        var pos := last;
        while pos < NHOPS_MAX
          invariant last <= pos <= NHOPS_MAX && faces == nextHops[last..pos]
        {
          faces := faces + [nextHops[pos]];
          pos := pos + 1;
        }
        assert nextHops[last..NHOPS_MAX] == Prevs();
      } else {
        faces := [nextHops[last]];
      }
    }

    /** An outdated update and an acknowledgement from the same face: when the event of the
        update is handled there may be no previous hop left to send to. */
    method AckOvertakes(from: Face, seqno: nat)
      requires Valid() && tfibCount == 0 && seqno >= sn
      modifies this`tfibCount, this`locks, nextHops
      ensures Valid() && tfibCount == 0
    {
      hide Booked, NoDuplicates, RemoveAt, Front, Back;
      assert Prevs() == [];
      OlderUpdate(from);
      var _ := TfibDel(from);
      assert ToSet(Prevs()) == {};
      PrevsSize(locks, others, Nexts(), Prevs());
    }

    /** Take a lock on each desired face, as looking it up does. */
    method LockAll(desired: seq<Face>)
      requires Valid()
      modifies this`locks, this`others
      ensures Valid() && others == With(old(others), desired)
    {
      hide Booked, Lock, With, Front, Back;
      ghost var base := others;
      WithNone(base);
      assert desired[..0] == [];
      for j := 0 to |desired|
        invariant Valid() && others == With(base, desired[..j])
      {
        BookOther(locks, base, desired[..j], Nexts(), Prevs(), desired[j]);
        locks := Lock(locks, desired[j]);
        assert desired[..j + 1] == desired[..j] + [desired[j]];
        others := With(base, desired[..j + 1]);
      }
      assert desired[..|desired|] == desired;
    }

    /** Give back the first of those locks. */
    method GiveFirst(f: Face, ghost base: multiset<Face>, ghost left: seq<Face>)
      requires Valid() && others == With(base, left) && 0 < |left| && left[0] == f
      modifies this`locks, this`others
      ensures Valid() && others == With(base, left[1..])
    {
      hide Booked, With, Unlock, Front, Back;
      UnbookFirst(locks, base, left, Nexts(), Prevs());
      locks := Unlock(locks, f);
      others := With(base, left[1..]);
    }

    /** Give back one of those locks. */
    method GiveBack(f: Face, ghost base: multiset<Face>, ghost left: seq<Face>, ghost k: nat)
      requires Valid() && others == With(base, left) && k < |left| && left[k] == f
      modifies this`locks, this`others
      ensures Valid() && others == With(base, SwapRemove(left, k))
    {
      hide Booked, With, Unlock, SwapRemove, Front, Back;
      UnbookOther(locks, base, left, Nexts(), Prevs(), k);
      locks := Unlock(locks, f);
      others := With(base, SwapRemove(left, k));
    }

    /** Reconcile the next hops with the desired faces: those not desired are deleted
        while scanning, the desired ones not met are added, and the locks taken on the
        desired faces are given back. */
    method Sync(desired: seq<Face>)
      requires Valid() && |ToSet(desired)| + tfibCount <= NHOPS_MAX
      modifies this`entryCount, this`locks, this`others, nextHops
      ensures Valid() && others == old(others) && Prevs() == old(Prevs())
      ensures ToSet(Nexts()) == ToSet(desired)
      ensures LocksFollow(old(locks), locks, old(Nexts()), Nexts())
    {
      hide Booked, LocksFollow, NoDuplicates, SwapRemove, RemoveAt, At, With, Lock, Unlock, ToSet, Split, Front, Back;
      ghost var base := others;
      LockAll(desired);
      var faces := DropUnwanted(desired, base);
      AddMissing(desired, faces, base);
      LocksMoved(old(locks), locks, others, old(Nexts()), Nexts(), Prevs());
    }

    /** The scan.  What it leaves of the desired faces and the next hops it has kept are
        together the desired faces. */
    method DropUnwanted(desired: seq<Face>, ghost base: multiset<Face>) returns (faces: seq<Face>)
      requires Valid() && others == With(base, desired)
      modifies this`entryCount, this`locks, this`others, nextHops
      ensures Valid() && others == With(base, faces) && Prevs() == old(Prevs())
      ensures Split(desired, faces, Nexts())
    {
      hide Booked, NoDuplicates, SwapRemove, At, With, ToSet, Split;
      faces := desired;
      SplitNone(desired);
      var i := 0;
      while i < entryCount
        invariant Valid() && others == With(base, faces) && Prevs() == old(Prevs())
        invariant i <= entryCount && Split(desired, faces, Nexts()[..i])
        decreases entryCount - i
      {
        var k := Search(faces, nextHops[i]);
        if k == |faces| {
          DeletedAfter(locks, others, Nexts(), Prevs(), i);
          var _ := DelNh(nextHops[i]);
        } else {
          SplitMore(desired, faces, Nexts(), i, k);
          GiveBack(nextHops[i], base, faces, k);
          faces := SwapRemove(faces, k);
          i := i + 1;
        }
      }
      assert Nexts()[..i] == Nexts();
    }

    /** The desired faces left over. */
    method AddMissing(desired: seq<Face>, faces: seq<Face>, ghost base: multiset<Face>)
      requires Valid() && others == With(base, faces)
      requires Split(desired, faces, Nexts()) && |ToSet(desired)| + tfibCount <= NHOPS_MAX
      modifies this`entryCount, this`locks, this`others, nextHops
      ensures Valid() && others == base && Prevs() == old(Prevs())
      ensures ToSet(Nexts()) == ToSet(desired)
    {
      hide Booked, NoDuplicates, With, ToSet, Split, Front, Back, Snoc;
      WithNone(base);
      assert faces[0..] == faces;
      for j := 0 to |faces|
        invariant Valid() && others == With(base, faces[j..]) && Prevs() == old(Prevs())
        invariant Split(desired, faces[j..], Nexts())
      {
        ghost var left := faces[j..];
        assert left[0] == faces[j] && left[1..] == faces[j + 1..];
        SplitAdd(locks, others, Nexts(), Prevs(), desired, left);
        var _ := AddNh(faces[j]);
        GiveFirst(faces[j], base, left);
      }
      SplitDone(desired, Nexts());
    }
  }
}
