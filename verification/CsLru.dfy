/** The LRU list of the content store (hicn-plugin/src/cache_policies/cs_lru.c): a
    doubly linked list threaded through the nodes by index, 0 meaning none.  It is
    proved against the list of node ids that module Pcs works with. */
module CsLru {
  import opened Lists
  import opened Pcs

  datatype Link = Link(prev: nat, next: nat)

  function Before(list: seq<nat>, i: int): nat
    requires 0 <= i < |list|
  {
    if i == 0 then 0 else list[i - 1]
  }

  function After(list: seq<nat>, i: int): nat
    requires 0 <= i < |list|
  {
    if i == |list| - 1 then 0 else list[i + 1]
  }

  /** The links, head, tail and count are those of `list`, head first. */
  ghost predicate Represents(links: map<nat, Link>, head: nat, tail: nat, count: int, list: seq<nat>) {
    && count == |list|
    && NoDuplicates(list)
    && 0 !in list
    && head == (if list == [] then 0 else list[0])
    && tail == (if list == [] then 0 else list[|list| - 1])
    && (forall i | 0 <= i < |list| :: list[i] in links)
    && (forall i {:trigger links[list[i]]} | 0 <= i < |list| ::
          list[i] in links && links[list[i]] == Link(Before(list, i), After(list, i)))
  }

  lemma {:induction false} WithoutAt(q: seq<nat>, k: nat)
    requires NoDuplicates(q) && k < |q|
    ensures Without(q, q[k]) == q[..k] + q[k + 1..]
  {
    hide NoDuplicates;
    if k > 0 {
      TailDistinct(q);
      WithoutAt(q[1..], k - 1);
      WithoutStep(q, k);
    }
  }

  lemma WithoutStep(q: seq<nat>, k: nat)
    requires 0 < k < |q| && q[0] !in q[1..]
    ensures var t := q[1..]; t[k - 1] == q[k] && Without(q, q[k]) == [q[0]] + Without(t, q[k])
    ensures var t := q[1..]; [q[0]] + (t[..k - 1] + t[k..]) == q[..k] + q[k + 1..]
  {
    assert q[1..][k - 1] == q[k];
    assert q[k] in q[1..];
    CutAround(q, k);
  }

  lemma CutAround(q: seq<nat>, k: nat)
    requires 0 < k < |q|
    ensures var t := q[1..]; [q[0]] + (t[..k - 1] + t[k..]) == q[..k] + q[k + 1..]
  {
    var t := q[1..];
    assert t[..k - 1] == q[1..k];
    assert t[k..] == q[k + 1..];
    assert [q[0]] + q[1..k] == q[..k];
  }

  lemma RemovedDistinct(q: seq<nat>, k: nat)
    requires NoDuplicates(q) && k < |q|
    ensures NoDuplicates(q[..k] + q[k + 1..])
  {
    var r := q[..k] + q[k + 1..];
    assert forall i | 0 <= i < |r| :: r[i] == if i < k then q[i] else q[i + 1];
  }

  /** The links after the two neighbours of a node have been joined. */
  function Joined(links: map<nat, Link>, n: nat): map<nat, Link>
    requires Linked(links, n)
  {
    var link := links[n];
    var l1 := if link.prev != 0 then links[link.prev := links[link.prev].(next := link.next)] else links;
    var l2 := if link.next != 0 then l1[link.next := l1[link.next].(prev := link.prev)] else l1;
    l2[n := Link(0, 0)]
  }

  /** A node and its neighbours have links. */
  predicate Linked(links: map<nat, Link>, n: nat) {
    && n in links
    && (links[n].prev != 0 ==> links[n].prev in links)
    && (links[n].next != 0 ==> links[n].next in links)
  }

  lemma JoinedValue(links: map<nat, Link>, n: nat, x: nat)
    requires Linked(links, n) && x in links && x != n && x != 0
    ensures x in Joined(links, n)
    ensures Joined(links, n)[x] == Link(if x == links[n].next then links[n].prev else links[x].prev,
                                        if x == links[n].prev then links[n].next else links[x].next)
  {
  }

  /** Element `i` of the list without its `k`-th element. */
  function Index(k: nat, i: nat): nat {
    if i < k then i else i + 1
  }

  lemma RemovedAt(list: seq<nat>, k: nat, i: nat)
    requires k < |list| && i < |list| - 1
    ensures var list' := list[..k] + list[k + 1..]; list'[i] == list[Index(k, i)]
  {
  }

  lemma RemovedNeighbours(list: seq<nat>, k: nat, i: nat)
    requires k < |list| && i < |list| - 1
    ensures var list' := list[..k] + list[k + 1..];
      && Before(list', i) == (if i == k then Before(list, k) else Before(list, Index(k, i)))
      && After(list', i) == (if i + 1 == k then After(list, k) else After(list, Index(k, i)))
  {
  }

  lemma Same(list: seq<nat>, a: nat, b: nat)
    requires NoDuplicates(list) && a < |list| && b < |list|
    ensures list[a] == list[b] <==> a == b
  {
  }

  /** The element at `j` is before or after the one at `k` just when its index says so. */
  lemma Neighbours(list: seq<nat>, k: nat, j: nat)
    requires NoDuplicates(list) && 0 !in list && k < |list| && j < |list|
    ensures list[j] == After(list, k) <==> j == k + 1
    ensures list[j] == Before(list, k) <==> j + 1 == k
    ensures list[j] != 0
  {
    assert list[j] in list;
    if k > 0 {
      Same(list, j, k - 1);
    }
    if k < |list| - 1 {
      Same(list, j, k + 1);
    }
  }

  lemma Attached(links: map<nat, Link>, head: nat, tail: nat, count: int, list: seq<nat>, k: nat)
    requires Represents(links, head, tail, count, list) && k < |list|
    ensures Linked(links, list[k]) && links[list[k]] == Link(Before(list, k), After(list, k))
  {
  }

  lemma JoinedAt(links: map<nat, Link>, head: nat, tail: nat, count: int, list: seq<nat>, k: nat, i: nat)
    requires Represents(links, head, tail, count, list) && k < |list| && i < |list| - 1
    ensures Linked(links, list[k])
    ensures var list' := list[..k] + list[k + 1..];
      list'[i] in Joined(links, list[k]) && Joined(links, list[k])[list'[i]] == Link(Before(list', i), After(list', i))
  {
    hide Joined, Before, After;
    var j := Index(k, i);
    Attached(links, head, tail, count, list, k);
    Attached(links, head, tail, count, list, j);
    Same(list, j, k);
    Neighbours(list, k, j);
    JoinedValue(links, list[k], list[j]);
    RemovedAt(list, k, i);
    RemovedNeighbours(list, k, i);
  }

  lemma RemovedEnds(list: seq<nat>, k: nat)
    requires k < |list| && 0 !in list
    ensures var list' := list[..k] + list[k + 1..];
      && (if list' == [] then 0 else list'[0]) == (if Before(list, k) != 0 then list[0] else After(list, k))
      && (if list' == [] then 0 else list'[|list'| - 1])
         == (if After(list, k) != 0 then list[|list| - 1] else Before(list, k))
  {
    assert k > 0 ==> list[k - 1] in list;
    assert k < |list| - 1 ==> list[k + 1] in list;
  }

  lemma JoinedRepresents(links: map<nat, Link>, head: nat, tail: nat, count: int, list: seq<nat>, k: nat)
    requires Represents(links, head, tail, count, list) && k < |list|
    ensures var n := list[k];
      && Linked(links, n)
      && Represents(Joined(links, n), if links[n].prev != 0 then head else links[n].next,
                    if links[n].next != 0 then tail else links[n].prev, count - 1, Without(list, n))
  {
    hide Joined, Before, After;
    WithoutAt(list, k);
    RemovedDistinct(list, k);
    RemovedEnds(list, k);
    Attached(links, head, tail, count, list, k);
    var list' := list[..k] + list[k + 1..];
    forall i | 0 <= i < |list'|
      ensures list'[i] in Joined(links, list[k])
      ensures Joined(links, list[k])[list'[i]] == Link(Before(list', i), After(list', i))
    {
      JoinedAt(links, head, tail, count, list, k, i);
    }
  }

  /** The same for a node that is known to be on the list. */
  lemma Detached(links: map<nat, Link>, head: nat, tail: nat, count: int, list: seq<nat>, n: nat)
    requires Represents(links, head, tail, count, list) && n in list
    ensures Linked(links, n)
    ensures Represents(Joined(links, n), if links[n].prev != 0 then head else links[n].next,
                       if links[n].next != 0 then tail else links[n].prev, count - 1, Without(list, n))
  {
    hide Joined;
    var k :| 0 <= k < |list| && list[k] == n;
    JoinedRepresents(links, head, tail, count, list, k);
  }

  /** The links after a node has been attached before the head. */
  function Pushed(links: map<nat, Link>, head: nat, n: nat): map<nat, Link>
    requires head != 0 ==> head in links
  {
    if head != 0 then links[head := Link(n, links[head].next)][n := Link(0, head)] else links[n := Link(0, 0)]
  }

  lemma PushedRepresents(links: map<nat, Link>, head: nat, tail: nat, count: int, list: seq<nat>, n: nat)
    requires Represents(links, head, tail, count, list) && n != 0 && n !in list
    ensures head != 0 ==> head in links
    ensures Represents(Pushed(links, head, n), n, if head != 0 then tail else n, count + 1, [n] + list)
  {
    var list' := [n] + list;
    forall i | 0 <= i < |list'|
      ensures list'[i] in Pushed(links, head, n)
      ensures Pushed(links, head, n)[list'[i]] == Link(Before(list', i), After(list', i))
    {
      if i > 0 {
        Attached(links, head, tail, count, list, i - 1);
        Same(list, 0, i - 1);
      }
    }
  }

  /** What the links of a node on the list tell. */
  lemma Ends(links: map<nat, Link>, head: nat, tail: nat, count: int, list: seq<nat>, n: nat)
    requires Represents(links, head, tail, count, list) && n in list
    ensures n in links && n != 0 && n !in Without(list, n)
    ensures links[n].prev == 0 <==> head == n
    ensures head == n ==> (links[n].next == 0 <==> |list| == 1) && [n] + Without(list, n) == list
    ensures |list| == 1 ==> head == n
  {
    var k :| 0 <= k < |list| && list[k] == n;
    Attached(links, head, tail, count, list, k);
    WithoutAt(list, k);
    Same(list, 0, k);
    Neighbours(list, k, 0);
    Neighbours(list, k, k);
  }

  lemma Alone(links: map<nat, Link>, head: nat, tail: nat, count: int, list: seq<nat>)
    requires Represents(links, head, tail, count, list)
    ensures |list| == 1 ==> tail == head && count == 1
    ensures |list| == 0 ==> head == 0
  {
  }

  /** What `hicn_cs_lru_update_head` makes of links, head, tail and count. */
  function Updated(links: map<nat, Link>, head: nat, tail: nat, count: int, n: nat, ghost list: seq<nat>): (map<nat, Link>, nat, nat, int)
    requires Represents(links, head, tail, count, list) && n in list
  {
    Detached(links, head, tail, count, list, n);
    Ends(links, head, tail, count, list, n);
    var link := links[n];
    if link.prev != 0 then
      var tail' := if link.next != 0 then tail else link.prev;
      HeadLinked(Joined(links, n), head, tail', count - 1, Without(list, n));
      (Pushed(Joined(links, n), head, n), n, if head != 0 then tail' else n, count)
    else if link.next == 0 then
      HeadLinked(links, head, tail, count, list);
      (Pushed(links, head, n), n, tail, count + 1)
    else (links, head, tail, count)
  }

  lemma HeadLinked(links: map<nat, Link>, head: nat, tail: nat, count: int, list: seq<nat>)
    requires Represents(links, head, tail, count, list)
    ensures head != 0 ==> head in links
  {
  }

  class CsLru {
    var links: map<nat, Link>
    var head: nat
    var tail: nat
    var count: int
    ghost var list: seq<nat>

    ghost predicate Valid()
      reads this
    {
      Represents(links, head, tail, count, list)
    }

    constructor ()
      ensures Valid() && list == []
    {
      links, head, tail, count, list := map[], 0, 0, 0, [];
    }

    /** Attach a node at the head. */
    method Insert(n: nat)
      requires Valid() && n != 0 && n !in list
      modifies this
      ensures Valid() && list == [n] + old(list)
      ensures (old(head) != 0 ==> old(head) in old(links)) && links == Pushed(old(links), old(head), n)
      ensures head == n && tail == (if old(head) != 0 then old(tail) else n) && count == old(count) + 1
    {
      hide Represents;
      PushedRepresents(links, head, tail, count, list, n);
      if head != 0 {
        links := links[head := Link(n, links[head].next)];
        links := links[n := Link(0, head)];
        head := n;
      } else {
        links := links[n := Link(0, 0)];
        head, tail := n, n;
      }
      count := count + 1;
      list := [n] + list;
    }

    /** Detach a node, wherever it is. */
    method Dequeue(n: nat)
      requires Valid() && n in list
      modifies this
      ensures Valid() && list == Without(old(list), n)
      ensures n in links && links[n] == Link(0, 0)
      ensures Linked(old(links), n) && links == Joined(old(links), n) && count == old(count) - 1
      ensures head == (if old(links)[n].prev != 0 then old(head) else old(links)[n].next)
      ensures tail == (if old(links)[n].next != 0 then old(tail) else old(links)[n].prev)
    {
      hide Represents, Without;
      Detached(links, head, tail, count, list, n);
      var link := links[n];
      if link.prev != 0 {
        links := links[link.prev := links[link.prev].(next := link.next)];
      } else {
        head := link.next;
      }
      if link.next != 0 {
        links := links[link.next := links[link.next].(prev := link.prev)];
      } else {
        tail := link.prev;
      }
      links := links[n := Link(0, 0)];
      count := count - 1;
      list := Without(list, n);
    }

    /** Move a node to the head.  A node without neighbours is taken to be off the
        list and attached, although it may be the only one on it. */
    method UpdateHead(n: nat)
      requires Valid() && n in list
      modifies this
      ensures |old(list)| > 1 ==> Valid() && list == [n] + Without(old(list), n)
      ensures |old(list)| == 1 ==> head == n && tail == n && count == 2 && n in links && links[n] == Link(0, n)
      ensures (links, head, tail, count) == Updated(old(links), old(head), old(tail), old(count), n, old(list))
    {
      hide Represents, Without;
      Ends(links, head, tail, count, list, n);
      Alone(links, head, tail, count, list);
      if links[n].prev != 0 {
        Dequeue(n);
        Insert(n);
      } else if links[n].next == 0 {
        links := links[head := Link(n, links[head].next)];
        links := links[n := Link(0, head)];
        head := n;
        count := count + 1;
      }
    }

    /** The next node to evict. */
    method DeleteGet() returns (n: nat)
      requires Valid() && list != []
      ensures n == list[|list| - 1]
    {
      n := tail;
    }
  }

  lemma CountIs(links: map<nat, Link>, head: nat, tail: nat, count: int, list: seq<nat>)
    requires Represents(links, head, tail, count, list)
    ensures count == |list|
  {
  }

  /** What is left of a list with a sole element. */
  lemma SoleElementBreaks(links: map<nat, Link>, n: nat, list: seq<nat>)
    requires n != 0 && n in links && links[n] == Link(0, n)
    ensures !Represents(links, n, n, 2, list)
  {
  }

  /** Moving an element to the head gives the links of some list if and only if it is
      not alone, and then of the list with it in front. */
  lemma UpdateIff(links: map<nat, Link>, head: nat, tail: nat, count: int, n: nat, list: seq<nat>)
    requires Represents(links, head, tail, count, list) && n in list
    ensures var (l, h, t, c) := Updated(links, head, tail, count, n, list);
      && ((exists list' :: Represents(l, h, t, c, list')) <==> |list| > 1)
      && (|list| > 1 ==> Represents(l, h, t, c, [n] + Without(list, n)))
  {
    hide Represents, Without;
    Ends(links, head, tail, count, list, n);
    Alone(links, head, tail, count, list);
    CountIs(links, head, tail, count, list);
    var (l, h, t, c) := Updated(links, head, tail, count, n, list);
    if links[n].prev != 0 {
      Detached(links, head, tail, count, list, n);
      PushedRepresents(Joined(links, n), head, if links[n].next != 0 then tail else links[n].prev, count - 1, Without(list, n), n);
    } else if |list| == 1 {
      forall list'
        ensures !Represents(l, h, t, c, list')
      {
        SoleElementBreaks(l, n, list');
      }
    }
  }
}
