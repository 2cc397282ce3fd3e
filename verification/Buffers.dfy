/** Packet buffers shared between the faces data is sent to, the content store and its
    replies (hicn-plugin/src/data_fwd.h, data_fwd_node.c, interest_hitcs_node.c).

    A buffer is a block of memory with a current position and length.  A large packet is
    not copied for each face: a clone has a copy of the first 128 bytes in a buffer of
    its own, which is chained to the original; the original moves past those bytes and
    counts, in eight bits, the clones and the content-store entry that refer to it. */
module Buffers {
  import opened Lists

  type Byte = bv8
  type Id = nat

  /** Two cache lines: the length of the head of a clone. */
  const HEAD := 128

  /** `small` tells that the packet is kept whole in the content store. */
  datatype Buf = Buf(data: seq<Byte>, cur: nat, len: nat, next: Option<Id>, refs: nat, small: bool)

  /** All buffers, those at the head of a packet in flight and those that
      content-store entries hold. */
  datatype Pool = Pool(mem: map<Id, Buf>, flight: set<Id>, store: set<Id>)

  predicate InBounds(b: Buf) {
    b.cur + b.len <= |b.data|
  }

  function Current(b: Buf): (r: seq<Byte>)
    requires InBounds(b)
    ensures |r| == b.len
  {
    b.data[b.cur..b.cur + b.len]
  }

  // --------------------------------------------------------------------- invariant

  ghost function Sharers(p: Pool, t: Id): set<Id>
    requires p.flight <= p.mem.Keys
  {
    set h | h in p.flight && p.mem[h].next == Some(t)
  }

  ghost function Holders(p: Pool, t: Id): nat
    requires p.flight <= p.mem.Keys
  {
    |Sharers(p, t)| + if t in p.store then 1 else 0
  }

  /** The head of a packet in flight has one reference and may be chained to a shared
      buffer. */
  predicate GoodHead(p: Pool, h: Id)
    requires h in p.mem
  {
    var b := p.mem[h];
    InBounds(b) && b.refs == 1 && (b.next.Some? ==> b.next.value in p.mem && b.next.value !in p.flight)
  }

  /** The count of another buffer is the number of references to it. */
  ghost predicate GoodTail(p: Pool, t: Id)
    requires t in p.mem && p.flight <= p.mem.Keys
  {
    var b := p.mem[t];
    && InBounds(b) && b.next == None
    && 1 <= b.refs <= 255 && b.refs == Holders(p, t)
    && (if b.small then IsSmall(b) && Sharers(p, t) == {} else HEAD <= b.cur)
  }

  ghost predicate Inv(p: Pool) {
    && p.flight <= p.mem.Keys && p.store <= p.mem.Keys && p.flight !! p.store
    && (forall h | h in p.flight :: GoodHead(p, h))
    && (forall t | t in p.mem && t !in p.flight :: GoodTail(p, t))
  }

  // --------------------------------------------------------------------- meaning

  /** The bytes of a packet. */
  function Bytes(p: Pool, h: Id): seq<Byte>
    requires h in p.mem && GoodHead(p, h)
    requires p.mem[h].next.Some? ==> InBounds(p.mem[p.mem[h].next.value])
  {
    match p.mem[h].next
    case None => Current(p.mem[h])
    case Some(t) => Current(p.mem[h]) + Current(p.mem[t])
  }

  /** The bytes a content-store entry stands for. */
  function Cached(b: Buf): seq<Byte>
    requires InBounds(b) && (b.small || HEAD <= b.cur)
  {
    if b.small then Current(b) else b.data[b.cur - HEAD..b.cur + b.len]
  }

  /** Packets and cached packets as values of their own. */
  datatype View = View(flight: map<Id, seq<Byte>>, store: map<Id, seq<Byte>>)

  ghost function ViewOf(p: Pool): View
    requires Inv(p)
  {
    View(map h | h in p.flight :: Bytes(p, h), map c | c in p.store :: Cached(p.mem[c]))
  }

  // ----------------------------------------------------------------------- steps

  datatype Step =
    | Arrive(b: Id, data: seq<Byte>, cur: nat, len: nat)
    | Satisfy(b: Id, ids: seq<Id>, keep: bool)
    | Hit(c: Id, dest: Id, spare: Id)
    | Rewrite(h: Id, off: nat, bytes: seq<Byte>)
    | Transmit(h: Id)
    | Evict(c: Id)

  /** A buffer can take the reply to an interest. */
  predicate CanTake(b: Buf) {
    b.next == None && b.cur + 2 * HEAD <= |b.data|
  }

  /** Data that satisfies `n` faces is a single new buffer; 253 is what its count has
      room for. */
  predicate CanSatisfy(p: Pool, b: Id, ids: seq<Id>) {
    && b in p.flight && b in p.mem && p.mem[b].next == None && !p.mem[b].small
    && 1 <= |ids| <= 253 && NoDuplicates(ids) && forall d | d in ids :: d !in p.mem
  }

  predicate Enabled(p: Pool, step: Step) {
    match step
    case Arrive(b, data, cur, len) => b !in p.mem && cur + len <= |data|
    case Satisfy(b, ids, keep) => CanSatisfy(p, b, ids)
    case Hit(c, dest, spare) =>
      && c in p.store && dest in p.flight && dest in p.mem && spare !in p.mem
      && CanTake(p.mem[dest])
    case Rewrite(h, off, bytes) => h in p.flight && h in p.mem && off + |bytes| <= p.mem[h].len
    case Transmit(h) => h in p.flight
    case Evict(c) => c in p.store
  }

  /** Write bytes into a buffer's memory. */
  function Write(data: seq<Byte>, at: nat, bytes: seq<Byte>): (r: seq<Byte>)
    requires at + |bytes| <= |data|
    ensures |r| == |data| && r[at..at + |bytes|] == bytes
  {
    data[..at] + bytes + data[at + |bytes|..]
  }

  /** New memory that holds some bytes at a position. */
  function Block(size: nat, at: nat, bytes: seq<Byte>): (r: seq<Byte>)
    requires at + |bytes| <= size
    ensures |r| == size && r[at..at + |bytes|] == bytes
  {
    Write(seq(size, _ => 0), at, bytes)
  }

  function Copy(b: Buf): Buf
    requires InBounds(b)
  {
    b.(data := Block(|b.data|, b.cur, Current(b)), refs := 1)
  }

  /** The head of a clone of the buffer `id`. */
  function Head(b: Buf, id: Id): Buf
    requires InBounds(b) && HEAD <= b.len
  {
    Buf(Block(|b.data|, b.cur, Current(b)[..HEAD]), b.cur, HEAD, Some(id), 1, b.small)
  }

  function Advance(b: Buf): Buf
    requires HEAD <= b.len
  {
    b.(cur := b.cur + HEAD, len := b.len - HEAD)
  }

  function Retreat(b: Buf): Buf
    requires HEAD <= b.cur
  {
    b.(cur := b.cur - HEAD, len := b.len + HEAD)
  }

  predicate IsSmall(b: Buf) {
    b.len <= HEAD + 2 * 64
  }

  /** What satisfying faces makes of the buffers. */
  function SatisfyMem(mem: map<Id, Buf>, b: Id, ids: seq<Id>, keep: bool): map<Id, Buf>
    requires b in mem && InBounds(mem[b])
  {
    var s := mem[b];
    if IsSmall(s) then
      var s' := s.(small := true);
      var all := mem + map d | d in ids :: Copy(s');
      if keep then all[b := s'] else all - {b}
    else
      var all := mem + map d | d in ids :: Head(s, b);
      all[b := Advance(s).(refs := if keep then |ids| + 1 else |ids|)]
  }

  function SatisfyPool(p: Pool, b: Id, ids: seq<Id>, keep: bool): Pool
    requires b in p.mem && InBounds(p.mem[b])
  {
    Pool(SatisfyMem(p.mem, b, ids, keep), p.flight - {b} + ToSet(ids), if keep then p.store + {b} else p.store)
  }

  /** Drop one reference to a shared buffer; the last one frees it. */
  function Release(mem: map<Id, Buf>, t: Id): map<Id, Buf>
    requires t in mem && mem[t].refs >= 1
  {
    var b := mem[t];
    if b.refs > 1 then mem[t := b.(refs := b.refs - 1)] else mem - {t}
  }

  function TransmitMem(mem: map<Id, Buf>, h: Id): map<Id, Buf>
    requires h in mem
    requires mem[h].next.Some? ==> mem[h].next.value in mem && mem[h].next.value != h && mem[mem[h].next.value].refs >= 1
  {
    match mem[h].next
    case None => mem - {h}
    case Some(t) => Release(mem - {h}, t)
  }

  /** The buffer that the entry holds after a reply. */
  function HitHolds(mem: map<Id, Buf>, c: Id, spare: Id): Id
    requires c in mem
  {
    if !mem[c].small && mem[c].refs == 255 then spare else c
  }

  predicate CanHit(mem: map<Id, Buf>, c: Id, dest: Id) {
    && c in mem && dest in mem && c != dest && CanTake(mem[dest]) && InBounds(mem[c])
    && if mem[c].small then IsSmall(mem[c]) else HEAD <= mem[c].cur
  }

  /** What a reply from the content store makes of the buffers. */
  function HitMem(mem: map<Id, Buf>, c: Id, dest: Id, spare: Id): map<Id, Buf>
    requires CanHit(mem, c, dest)
  {
    var cs, d := mem[c], mem[dest];
    if cs.small then
      mem[dest := d.(data := Write(d.data, d.cur, Current(cs)), len := cs.len, small := true)]
    else
      var whole := Retreat(cs);
      var head := Write(d.data, d.cur, Current(whole)[..HEAD]);
      var reply := d.(data := head, len := HEAD, small := false);
      if cs.refs == 255 then
        mem[c := cs.(refs := 254)][spare := Advance(Copy(whole)).(refs := 2)][dest := reply.(next := Some(spare))]
      else
        mem[c := cs.(refs := cs.refs + 1)][dest := reply.(next := Some(c))]
  }

  function Next(p: Pool, step: Step): Pool
    requires Inv(p) && Enabled(p, step)
  {
    match step
    case Arrive(b, data, cur, len) =>
      p.(mem := p.mem[b := Buf(data, cur, len, None, 1, false)], flight := p.flight + {b})
    case Satisfy(b, ids, keep) => SatisfyPool(p, b, ids, keep)
    case Hit(c, dest, spare) =>
      p.(mem := HitMem(p.mem, c, dest, spare), store := p.store - {c} + {HitHolds(p.mem, c, spare)})
    case Rewrite(h, off, bytes) =>
      var b := p.mem[h];
      p.(mem := p.mem[h := b.(data := Write(b.data, b.cur + off, bytes))])
    case Transmit(h) => p.(mem := TransmitMem(p.mem, h), flight := p.flight - {h})
    case Evict(c) => p.(mem := Release(p.mem, c), store := p.store - {c})
  }

  /** The same steps on packets that share nothing. */
  ghost predicate Follows(v: View, step: Step, v': View) {
    match step
    case Arrive(b, data, cur, len) => cur + len <= |data| && v' == v.(flight := v.flight[b := data[cur..cur + len]])
    case Satisfy(b, ids, keep) =>
      && b in v.flight
      && v'.flight == (v.flight - {b}) + (map d | d in ids :: v.flight[b])
      && v'.store == if keep then v.store[b := v.flight[b]] else v.store
    case Hit(c, dest, spare) =>
      && c in v.store
      && v'.flight == v.flight[dest := v.store[c]]
      && (v'.store == v.store || v'.store == (v.store - {c})[spare := v.store[c]])
    case Rewrite(h, off, bytes) =>
      && h in v.flight && off + |bytes| <= |v.flight[h]|
      && v' == v.(flight := v.flight[h := Write(v.flight[h], off, bytes)])
    case Transmit(h) => v' == v.(flight := v.flight - {h})
    case Evict(c) => v' == v.(store := v.store - {c})
  }

  // ------------------------------------------------------------------- invariance

  lemma ArriveKeeps(p: Pool, b: Id, data: seq<Byte>, cur: nat, len: nat)
    requires Inv(p) && Enabled(p, Arrive(b, data, cur, len))
    ensures Inv(Next(p, Arrive(b, data, cur, len)))
  {
    var q := Next(p, Arrive(b, data, cur, len));
    forall t | t in q.mem && t !in q.flight
      ensures GoodTail(q, t)
    {
      assert Sharers(q, t) == Sharers(p, t);
    }
  }

  lemma RewriteKeeps(p: Pool, h: Id, off: nat, bytes: seq<Byte>)
    requires Inv(p) && Enabled(p, Rewrite(h, off, bytes))
    ensures Inv(Next(p, Rewrite(h, off, bytes)))
  {
    var q := Next(p, Rewrite(h, off, bytes));
    forall t | t in q.mem && t !in q.flight
      ensures GoodTail(q, t)
    {
      assert Sharers(q, t) == Sharers(p, t);
    }
  }

  lemma EvictKeeps(p: Pool, c: Id)
    requires Inv(p) && Enabled(p, Evict(c))
    ensures Inv(Next(p, Evict(c)))
  {
    var q := Next(p, Evict(c));
    assert GoodTail(p, c);
    if c !in q.mem {
      assert Sharers(p, c) == {};
      assert forall h | h in p.flight :: h in Sharers(p, c) <==> p.mem[h].next == Some(c);
    }
    forall t | t in q.mem && t !in q.flight
      ensures GoodTail(q, t)
    {
      assert Sharers(q, t) == Sharers(p, t);
    }
  }

  lemma Sole(s: set<Id>, h: Id)
    requires h in s && |s| <= 1
    ensures s == {h}
  {
    assert |s - {h}| == 0;
  }

  /** The last clone of a buffer that is not in the store is its only reference. */
  lemma LastClone(p: Pool, h: Id, t: Id)
    requires Inv(p) && h in p.flight && p.mem[h].next == Some(t) && p.mem[t].refs <= 1
    ensures t !in p.store && forall g | g in p.flight && g != h :: p.mem[g].next != Some(t)
  {
    assert GoodHead(p, h);
    assert GoodTail(p, t);
    assert h in Sharers(p, t);
    Sole(Sharers(p, t), h);
    assert forall g | g in p.flight && p.mem[g].next == Some(t) :: g in Sharers(p, t);
  }

  lemma TransmitTails(p: Pool, h: Id)
    requires Inv(p) && Enabled(p, Transmit(h))
    ensures var q := Next(p, Transmit(h)); q.flight <= q.mem.Keys && forall t | t in q.mem && t !in q.flight :: GoodTail(q, t)
  {
    var q := Next(p, Transmit(h));
    forall t | t in q.mem && t !in q.flight
      ensures GoodTail(q, t)
    {
      assert GoodTail(p, t);
      assert Sharers(q, t) == Sharers(p, t) - {h};
    }
  }

  lemma TransmitKeeps(p: Pool, h: Id)
    requires Inv(p) && Enabled(p, Transmit(h))
    ensures Inv(Next(p, Transmit(h)))
  {
    hide GoodTail;
    TransmitTails(p, h);
    assert GoodHead(p, h);
    if p.mem[h].next.Some? && p.mem[p.mem[h].next.value].refs <= 1 {
      LastClone(p, h, p.mem[h].next.value);
    }
  }

  /** What a pool is after satisfying faces, buffer by buffer. */
  lemma Satisfied(p: Pool, b: Id, ids: seq<Id>, keep: bool)
    requires Inv(p) && CanSatisfy(p, b, ids)
    ensures var q := SatisfyPool(p, b, ids, keep);
      && (forall h | h in p.mem && h != b :: h in q.mem && q.mem[h] == p.mem[h] && h !in ids)
      && (forall d | d in ids :: d in q.mem && q.mem[d] == if IsSmall(p.mem[b]) then Copy(p.mem[b].(small := true)) else Head(p.mem[b], b))
      && (forall t | t in q.mem :: t in p.mem || t in ids)
      && (b in q.mem <==> keep || !IsSmall(p.mem[b]))
      && (b in q.mem ==> q.mem[b] == if IsSmall(p.mem[b]) then p.mem[b].(small := true)
                                    else Advance(p.mem[b]).(refs := if keep then |ids| + 1 else |ids|))
  {
    assert GoodHead(p, b);
  }

  lemma SatisfyHeads(p: Pool, b: Id, ids: seq<Id>, keep: bool)
    requires Inv(p) && CanSatisfy(p, b, ids)
    ensures var q := SatisfyPool(p, b, ids, keep); forall h | h in q.flight :: h in q.mem && GoodHead(q, h)
  {
    hide SatisfyMem, GoodTail;
    var q := SatisfyPool(p, b, ids, keep);
    Satisfied(p, b, ids, keep);
    forall h | h in q.flight
      ensures h in q.mem && GoodHead(q, h)
    {
      if h !in ids {
        assert GoodHead(p, h);
      }
    }
  }

  lemma SourceSharers(p: Pool, b: Id, ids: seq<Id>, keep: bool)
    requires Inv(p) && CanSatisfy(p, b, ids)
    ensures var q := SatisfyPool(p, b, ids, keep); q.flight <= q.mem.Keys && Sharers(q, b) == if IsSmall(p.mem[b]) then {} else ToSet(ids)
  {
    hide SatisfyMem, Block, Write, Current, GoodTail, IsSmall;
    var q := SatisfyPool(p, b, ids, keep);
    Satisfied(p, b, ids, keep);
    assert forall h | h in p.flight :: GoodHead(p, h);
  }

  lemma SatisfySource(p: Pool, b: Id, ids: seq<Id>, keep: bool)
    requires Inv(p) && CanSatisfy(p, b, ids)
    ensures var q := SatisfyPool(p, b, ids, keep); q.flight <= q.mem.Keys && (b in q.mem ==> GoodTail(q, b))
  {
    hide SatisfyMem, Block, Write, Current, Sharers;
    var q := SatisfyPool(p, b, ids, keep);
    Satisfied(p, b, ids, keep);
    assert GoodHead(p, b);
    SetSize(ids);
    SourceSharers(p, b, ids, keep);
  }

  lemma SatisfyOther(p: Pool, b: Id, ids: seq<Id>, keep: bool, t: Id)
    requires Inv(p) && CanSatisfy(p, b, ids) && t in p.mem && t !in p.flight
    ensures var q := SatisfyPool(p, b, ids, keep); q.flight <= q.mem.Keys && t in q.mem && GoodTail(q, t)
  {
    hide SatisfyMem, Block, Write, Current, IsSmall;
    var q := SatisfyPool(p, b, ids, keep);
    Satisfied(p, b, ids, keep);
    assert GoodTail(p, t);
    assert Sharers(q, t) == Sharers(p, t);
  }

  lemma SatisfyKeeps(p: Pool, b: Id, ids: seq<Id>, keep: bool)
    requires Inv(p) && CanSatisfy(p, b, ids)
    ensures Inv(SatisfyPool(p, b, ids, keep))
  {
    hide SatisfyMem, GoodTail;
    assert GoodHead(p, b);
    var q := SatisfyPool(p, b, ids, keep);
    Satisfied(p, b, ids, keep);
    SatisfyHeads(p, b, ids, keep);
    SatisfySource(p, b, ids, keep);
    forall t | t in q.mem && t !in q.flight
      ensures GoodTail(q, t)
    {
      if t != b {
        SatisfyOther(p, b, ids, keep, t);
      }
    }
  }

  lemma HitIsPossible(p: Pool, c: Id, dest: Id, spare: Id)
    requires Inv(p) && Enabled(p, Hit(c, dest, spare))
    ensures CanHit(p.mem, c, dest) && GoodTail(p, c) && GoodHead(p, dest)
  {
    assert GoodTail(p, c);
  }

  /** What a pool is after a reply, buffer by buffer. */
  lemma Replied(p: Pool, c: Id, dest: Id, spare: Id)
    requires Inv(p) && Enabled(p, Hit(c, dest, spare))
    ensures CanHit(p.mem, c, dest)
    ensures var q := Next(p, Hit(c, dest, spare)); var cs := p.mem[c]; var d := HitHolds(p.mem, c, spare);
      && (forall t | t in p.mem && t != c && t != dest :: t in q.mem && q.mem[t] == p.mem[t])
      && (forall t | t in q.mem :: t in p.mem || t == d)
      && c in q.mem && d in q.mem && dest in q.mem
      && InBounds(q.mem[dest]) && q.mem[dest].refs == p.mem[dest].refs
      && q.mem[dest].next == (if cs.small then None else Some(d))
      && q.mem[c] == cs.(refs := if cs.small then cs.refs else if cs.refs == 255 then 254 else cs.refs + 1)
      && (d != c ==> InBounds(q.mem[d]) && !q.mem[d].small && q.mem[d].next == None && q.mem[d].cur == cs.cur && q.mem[d].refs == 2)
  {
    hide Block, Write;
    HitIsPossible(p, c, dest, spare);
  }

  lemma HitHeads(p: Pool, c: Id, dest: Id, spare: Id)
    requires Inv(p) && Enabled(p, Hit(c, dest, spare))
    ensures var q := Next(p, Hit(c, dest, spare)); forall h | h in q.flight :: h in q.mem && GoodHead(q, h)
  {
    hide HitMem;
    HitIsPossible(p, c, dest, spare);
    Replied(p, c, dest, spare);
  }

  lemma HitSharers(p: Pool, c: Id, dest: Id, spare: Id, t: Id)
    requires Inv(p) && Enabled(p, Hit(c, dest, spare))
    ensures dest !in Sharers(p, t)
    ensures var q := Next(p, Hit(c, dest, spare));
      && dest in q.mem && q.flight <= q.mem.Keys
      && Sharers(q, t) == if q.mem[dest].next == Some(t) then Sharers(p, t) + {dest} else Sharers(p, t)
  {
    hide HitMem, GoodTail;
    HitIsPossible(p, c, dest, spare);
    Replied(p, c, dest, spare);
  }

  lemma HitTail(p: Pool, c: Id, dest: Id, spare: Id, t: Id)
    requires Inv(p) && Enabled(p, Hit(c, dest, spare))
    requires t in p.mem && t !in p.flight
    ensures var q := Next(p, Hit(c, dest, spare)); q.flight <= q.mem.Keys && t in q.mem && GoodTail(q, t)
  {
    hide HitMem, Sharers, GoodHead;
    HitIsPossible(p, c, dest, spare);
    Replied(p, c, dest, spare);
    assert GoodTail(p, t);
    HitSharers(p, c, dest, spare, t);
  }

  lemma HitSpare(p: Pool, c: Id, dest: Id, spare: Id)
    requires Inv(p) && Enabled(p, Hit(c, dest, spare)) && HitHolds(p.mem, c, spare) == spare
    ensures var q := Next(p, Hit(c, dest, spare)); q.flight <= q.mem.Keys && spare in q.mem && GoodTail(q, spare)
  {
    hide HitMem;
    HitIsPossible(p, c, dest, spare);
    Replied(p, c, dest, spare);
    var q := Next(p, Hit(c, dest, spare));
    assert forall h | h in p.flight :: GoodHead(p, h);
    assert Sharers(q, spare) == {dest};
  }

  lemma HitKeeps(p: Pool, c: Id, dest: Id, spare: Id)
    requires Inv(p) && Enabled(p, Hit(c, dest, spare))
    ensures Inv(Next(p, Hit(c, dest, spare)))
  {
    hide HitMem, GoodTail, GoodHead;
    HitIsPossible(p, c, dest, spare);
    Replied(p, c, dest, spare);
    HitHeads(p, c, dest, spare);
    var q := Next(p, Hit(c, dest, spare));
    forall t | t in q.mem && t !in q.flight
      ensures GoodTail(q, t)
    {
      if t in p.mem {
        HitTail(p, c, dest, spare, t);
      } else {
        HitSpare(p, c, dest, spare);
      }
    }
  }

  /** Every step keeps the invariant. */
  lemma StepKeeps(p: Pool, step: Step)
    requires Inv(p) && Enabled(p, step)
    ensures Inv(Next(p, step))
  {
    hide Inv;
    match step
    case Arrive(b, data, cur, len) => ArriveKeeps(p, b, data, cur, len);
    case Satisfy(b, ids, keep) => SatisfyKeeps(p, b, ids, keep);
    case Hit(c, dest, spare) => HitKeeps(p, c, dest, spare);
    case Rewrite(h, off, bytes) => RewriteKeeps(p, h, off, bytes);
    case Transmit(h) => TransmitKeeps(p, h);
    case Evict(c) => EvictKeeps(p, c);
  }

  // -------------------------------------------------------------------- meaning kept

  lemma CopyBytes(b: Buf)
    requires InBounds(b)
    ensures InBounds(Copy(b)) && Current(Copy(b)) == Current(b)
  {
  }

  lemma HeadBytes(b: Buf, id: Id)
    requires InBounds(b) && HEAD <= b.len
    ensures InBounds(Head(b, id)) && Current(Head(b, id)) == Current(b)[..HEAD]
  {
  }

  lemma AdvanceBytes(b: Buf)
    requires InBounds(b) && HEAD <= b.len
    ensures InBounds(Advance(b)) && Current(Advance(b)) == Current(b)[HEAD..]
    ensures !b.small ==> Cached(Advance(b)) == Current(b)
  {
  }

  lemma RetreatBytes(b: Buf)
    requires InBounds(b) && HEAD <= b.cur && !b.small
    ensures InBounds(Retreat(b)) && Current(Retreat(b)) == Cached(b)
    ensures Current(b) == Cached(b)[HEAD..]
  {
  }

  /** The bytes of a clone are those of the packet. */
  lemma CloneBytes(b: Buf, id: Id)
    requires InBounds(b) && HEAD <= b.len
    ensures InBounds(Head(b, id)) && InBounds(Advance(b))
    ensures Current(Head(b, id)) + Current(Advance(b)) == Current(b)
  {
    HeadBytes(b, id);
    AdvanceBytes(b);
  }

  /** The buffer has the same bytes at the same place. */
  predicate SameBytes(b: Buf, b': Buf) {
    b'.data == b.data && b'.cur == b.cur && b'.len == b.len && b'.next == b.next && b'.small == b.small
  }

  lemma ViewKeys(p: Pool)
    requires Inv(p)
    ensures ViewOf(p).flight.Keys == p.flight && ViewOf(p).store.Keys == p.store
  {
  }

  lemma ViewSingle(p: Pool, h: Id)
    requires Inv(p) && h in p.flight && p.mem[h].next == None
    ensures GoodHead(p, h) && ViewOf(p).flight[h] == Current(p.mem[h])
  {
  }

  lemma ViewChained(p: Pool, h: Id, t: Id)
    requires Inv(p) && h in p.flight && p.mem[h].next == Some(t)
    ensures GoodHead(p, h) && t in p.mem && GoodTail(p, t)
    ensures ViewOf(p).flight[h] == Current(p.mem[h]) + Current(p.mem[t])
  {
    assert GoodHead(p, h);
  }

  lemma ViewEntry(p: Pool, c: Id)
    requires Inv(p) && c in p.store
    ensures GoodTail(p, c) && ViewOf(p).store[c] == Cached(p.mem[c])
  {
    assert GoodTail(p, c);
  }

  /** A packet that keeps its buffers keeps its bytes. */
  lemma Untouched(p: Pool, q: Pool, h: Id)
    requires Inv(p) && Inv(q)
    requires h in p.flight && h in q.flight && q.mem[h] == p.mem[h]
    requires forall t | p.mem[h].next == Some(t) && t in p.mem && t in q.mem :: SameBytes(p.mem[t], q.mem[t])
    ensures ViewOf(q).flight[h] == ViewOf(p).flight[h]
  {
    hide GoodTail;
    assert GoodHead(p, h) && GoodHead(q, h);
  }

  /** So does an entry. */
  lemma UntouchedEntry(p: Pool, q: Pool, c: Id)
    requires Inv(p) && Inv(q)
    requires c in p.store && c in q.store && SameBytes(p.mem[c], q.mem[c])
    ensures ViewOf(q).store[c] == ViewOf(p).store[c]
  {
    hide GoodTail;
  }

  /** What stays in flight, if the buffers there keep their bytes but for those of one
      packet. */
  lemma OthersStay(p: Pool, q: Pool, except: set<Id>)
    requires Inv(p) && Inv(q)
    requires forall h | h in p.flight && h in q.flight && h !in except :: q.mem[h] == p.mem[h]
    requires forall t | t in p.mem && t !in p.flight && t in q.mem :: t !in q.flight && SameBytes(p.mem[t], q.mem[t])
    ensures forall h | h in p.flight && h in q.flight && h !in except :: ViewOf(p).flight[h] == ViewOf(q).flight[h]
    ensures forall c | c in p.store && c in q.store :: ViewOf(p).store[c] == ViewOf(q).store[c]
  {
    hide GoodTail, ViewOf, Current;
    ViewKeys(p);
    ViewKeys(q);
    forall h | h in p.flight && h in q.flight && h !in except
      ensures ViewOf(p).flight[h] == ViewOf(q).flight[h]
    {
      assert GoodHead(p, h);
      Untouched(p, q, h);
    }
    forall c | c in p.store && c in q.store
      ensures ViewOf(p).store[c] == ViewOf(q).store[c]
    {
      UntouchedEntry(p, q, c);
    }
  }

  lemma ArriveFollows(p: Pool, b: Id, data: seq<Byte>, cur: nat, len: nat)
    requires Inv(p) && Enabled(p, Arrive(b, data, cur, len)) && Inv(Next(p, Arrive(b, data, cur, len)))
    ensures Follows(ViewOf(p), Arrive(b, data, cur, len), ViewOf(Next(p, Arrive(b, data, cur, len))))
  {
    hide GoodTail, GoodHead, ViewOf;
    var q := Next(p, Arrive(b, data, cur, len));
    ViewKeys(p);
    ViewKeys(q);
    OthersStay(p, q, {});
    ViewSingle(q, b);
    assert ViewOf(q).flight == ViewOf(p).flight[b := data[cur..cur + len]];
    assert ViewOf(q).store == ViewOf(p).store;
  }

  lemma EvictFollows(p: Pool, c: Id)
    requires Inv(p) && Enabled(p, Evict(c)) && Inv(Next(p, Evict(c)))
    ensures Follows(ViewOf(p), Evict(c), ViewOf(Next(p, Evict(c))))
  {
    hide GoodTail, GoodHead, ViewOf;
    var q := Next(p, Evict(c));
    ViewKeys(p);
    ViewKeys(q);
    OthersStay(p, q, {});
    assert ViewOf(q).flight == ViewOf(p).flight;
    assert ViewOf(q).store == ViewOf(p).store - {c};
  }

  lemma TransmitFollows(p: Pool, h: Id)
    requires Inv(p) && Enabled(p, Transmit(h)) && Inv(Next(p, Transmit(h)))
    ensures Follows(ViewOf(p), Transmit(h), ViewOf(Next(p, Transmit(h))))
  {
    hide GoodTail, ViewOf;
    var q := Next(p, Transmit(h));
    ViewKeys(p);
    ViewKeys(q);
    assert GoodHead(p, h);
    OthersStay(p, q, {});
    assert ViewOf(q).flight == ViewOf(p).flight - {h};
    assert ViewOf(q).store == ViewOf(p).store;
  }

  lemma WriteAt(data: seq<Byte>, at: nat, bytes: seq<Byte>, i: nat)
    requires at + |bytes| <= |data| && i < |data|
    ensures Write(data, at, bytes)[i] == if at <= i < at + |bytes| then bytes[i - at] else data[i]
  {
  }

  lemma WriteCurrent(b: Buf, off: nat, bytes: seq<Byte>)
    requires InBounds(b) && off + |bytes| <= b.len
    ensures var b' := b.(data := Write(b.data, b.cur + off, bytes)); InBounds(b') && Current(b') == Write(Current(b), off, bytes)
  {
    hide Write;
    var b' := b.(data := Write(b.data, b.cur + off, bytes));
    var r, w := Current(b'), Write(Current(b), off, bytes);
    forall i | 0 <= i < b.len
      ensures r[i] == w[i]
    {
      WriteAt(b.data, b.cur + off, bytes, b.cur + i);
      WriteAt(Current(b), off, bytes, i);
    }
  }

  lemma WritePrefix(x: seq<Byte>, y: seq<Byte>, off: nat, bytes: seq<Byte>)
    requires off + |bytes| <= |x|
    ensures Write(x, off, bytes) + y == Write(x + y, off, bytes)
  {
  }

  lemma Rewritten(p: Pool, h: Id, off: nat, bytes: seq<Byte>)
    requires Inv(p) && Enabled(p, Rewrite(h, off, bytes)) && Inv(Next(p, Rewrite(h, off, bytes)))
    ensures var v := ViewOf(p); off + |bytes| <= |v.flight[h]|
    ensures var v := ViewOf(p); ViewOf(Next(p, Rewrite(h, off, bytes))).flight[h] == Write(v.flight[h], off, bytes)
  {
    hide ViewOf, Write, Current;
    var q := Next(p, Rewrite(h, off, bytes));
    ViewKeys(p);
    ViewKeys(q);
    assert GoodHead(p, h);
    WriteCurrent(p.mem[h], off, bytes);
    if p.mem[h].next == None {
      ViewSingle(p, h);
      ViewSingle(q, h);
    } else {
      var t := p.mem[h].next.value;
      ViewChained(p, h, t);
      ViewChained(q, h, t);
      WritePrefix(Current(p.mem[h]), Current(p.mem[t]), off, bytes);
    }
  }

  lemma RewriteFollows(p: Pool, h: Id, off: nat, bytes: seq<Byte>)
    requires Inv(p) && Enabled(p, Rewrite(h, off, bytes)) && Inv(Next(p, Rewrite(h, off, bytes)))
    ensures Follows(ViewOf(p), Rewrite(h, off, bytes), ViewOf(Next(p, Rewrite(h, off, bytes))))
  {
    hide GoodTail, GoodHead, ViewOf, Write;
    var q := Next(p, Rewrite(h, off, bytes));
    ViewKeys(p);
    ViewKeys(q);
    OthersStay(p, q, {h});
    Rewritten(p, h, off, bytes);
    assert ViewOf(q).flight == ViewOf(p).flight[h := Write(ViewOf(p).flight[h], off, bytes)];
    assert ViewOf(q).store == ViewOf(p).store;
  }

  /** Every clone has the bytes of the packet, and so has the entry. */
  lemma ClonesAreExact(p: Pool, b: Id, ids: seq<Id>, keep: bool, d: Id)
    requires Inv(p) && CanSatisfy(p, b, ids) && Inv(SatisfyPool(p, b, ids, keep)) && d in ids
    ensures ViewOf(SatisfyPool(p, b, ids, keep)).flight[d] == ViewOf(p).flight[b]
  {
    hide SatisfyMem, ViewOf, Current, Copy, Head;
    var q := SatisfyPool(p, b, ids, keep);
    Satisfied(p, b, ids, keep);
    ViewKeys(p);
    ViewKeys(q);
    ViewSingle(p, b);
    var s := p.mem[b];
    if IsSmall(s) {
      SmallClone(q, d, s);
    } else {
      LargeClone(q, d, s, b, if keep then |ids| + 1 else |ids|);
    }
  }

  /** A packet of up to 256 bytes is copied for each face and nothing is shared; the clones of a
      longer one have 128 bytes of their own and share the rest, which is not copied. */
  lemma SharedIff(p: Pool, b: Id, ids: seq<Id>, keep: bool, d: Id)
    requires Inv(p) && CanSatisfy(p, b, ids) && d in ids
    ensures var s, q := p.mem[b], SatisfyPool(p, b, ids, keep);
      && d in q.mem
      && if s.len <= 256 then q.mem[d].next == None && q.mem[d].len == s.len && (b in q.mem <==> keep)
         else q.mem[d].next == Some(b) && q.mem[d].len == 128 && b in q.mem && q.mem[b].data == s.data
              && q.mem[b].cur == s.cur + 128 && q.mem[b].refs == if keep then |ids| + 1 else |ids|
  {
    hide NoDuplicates;
  }

  /** So it is with replies: a small entry is copied; a large one is shared, or, if its count
      is full, a copy of it is, which takes its place. */
  lemma ReplySharedIff(p: Pool, c: Id, dest: Id, spare: Id)
    requires Inv(p) && Enabled(p, Hit(c, dest, spare)) && CanHit(p.mem, c, dest)
    ensures var q := Next(p, Hit(c, dest, spare)); var cs := p.mem[c];
      && dest in q.mem && c in q.mem && q.mem[dest].small == cs.small
      && (if cs.small then q.mem[dest].next == None && q.mem[dest].len == cs.len && q.mem[c] == cs && q.store == p.store
          else if cs.refs < 255 then q.mem[dest].next == Some(c) && q.mem[dest].len == 128 && q.mem[c] == cs.(refs := cs.refs + 1) && q.store == p.store
          else q.mem[dest].next == Some(spare) && q.mem[dest].len == 128 && q.mem[c] == cs.(refs := 254) && q.store == p.store - {c} + {spare})
  {
    assert GoodTail(p, c);
  }

  lemma SmallClone(q: Pool, d: Id, s: Buf)
    requires Inv(q) && d in q.flight && InBounds(s) && s.next == None && q.mem[d] == Copy(s.(small := true))
    ensures ViewOf(q).flight[d] == Current(s)
  {
    hide ViewOf, Write, Block;
    ViewSingle(q, d);
    CopyBytes(s.(small := true));
  }

  lemma LargeClone(q: Pool, d: Id, s: Buf, b: Id, n: nat)
    requires Inv(q) && d in q.flight && InBounds(s) && HEAD <= s.len && b in q.mem
    requires q.mem[d] == Head(s, b) && q.mem[b] == Advance(s).(refs := n)
    ensures ViewOf(q).flight[d] == Current(s)
  {
    hide ViewOf, Write, Block;
    ViewChained(q, d, b);
    CloneBytes(s, b);
  }

  lemma StoredBytes(s: Buf, n: nat)
    requires InBounds(s) && !s.small
    ensures IsSmall(s) ==> Cached(s.(small := true)) == Current(s)
    ensures !IsSmall(s) ==> Cached(Advance(s).(refs := n)) == Current(s)
  {
  }

  lemma SatisfiedEntry(p: Pool, b: Id, ids: seq<Id>)
    requires Inv(p) && CanSatisfy(p, b, ids) && GoodHead(p, b)
    ensures var q := SatisfyPool(p, b, ids, true);
      && b in q.mem && b in q.store
      && q.mem[b] == if IsSmall(p.mem[b]) then p.mem[b].(small := true) else Advance(p.mem[b]).(refs := |ids| + 1)
  {
    hide SatisfyMem, GoodTail;
    Satisfied(p, b, ids, true);
  }

  lemma EntryIsExact(p: Pool, b: Id, ids: seq<Id>)
    requires Inv(p) && CanSatisfy(p, b, ids) && Inv(SatisfyPool(p, b, ids, true))
    ensures ViewOf(SatisfyPool(p, b, ids, true)).store[b] == ViewOf(p).flight[b]
  {
    hide SatisfyMem, ViewOf, Current, Cached, Copy, Head, Advance, GoodTail;
    assert GoodHead(p, b);
    var q := SatisfyPool(p, b, ids, true);
    SatisfiedEntry(p, b, ids);
    ViewKeys(p);
    ViewKeys(q);
    ViewSingle(p, b);
    ViewEntry(q, b);
    StoredBytes(p.mem[b], |ids| + 1);
  }

  lemma SatisfyRest(p: Pool, b: Id, ids: seq<Id>, keep: bool)
    requires Inv(p) && CanSatisfy(p, b, ids) && Inv(SatisfyPool(p, b, ids, keep))
    ensures var v, v' := ViewOf(p), ViewOf(SatisfyPool(p, b, ids, keep));
      && v'.flight.Keys == v.flight.Keys - {b} + ToSet(ids)
      && v'.store.Keys == (if keep then v.store.Keys + {b} else v.store.Keys)
      && b in v.flight && b !in v.store && b !in ids
      && (forall h | h in v.flight && h != b :: h !in ids && v'.flight[h] == v.flight[h])
      && (forall c | c in v.store :: v'.store[c] == v.store[c])
  {
    hide GoodTail, SatisfyMem, ViewOf, Current, Copy, Head, Advance;
    assert GoodHead(p, b);
    var q := SatisfyPool(p, b, ids, keep);
    Satisfied(p, b, ids, keep);
    ViewKeys(p);
    ViewKeys(q);
    OthersStay(p, q, {});
  }

  lemma SatisfyFollows(p: Pool, b: Id, ids: seq<Id>, keep: bool)
    requires Inv(p) && CanSatisfy(p, b, ids) && Inv(SatisfyPool(p, b, ids, keep))
    ensures Follows(ViewOf(p), Satisfy(b, ids, keep), ViewOf(SatisfyPool(p, b, ids, keep)))
  {
    hide GoodTail, SatisfyPool, ViewOf;
    assert GoodHead(p, b);
    var v, v' := ViewOf(p), ViewOf(SatisfyPool(p, b, ids, keep));
    SatisfyRest(p, b, ids, keep);
    forall d | d in ids
      ensures v'.flight[d] == v.flight[b]
    {
      ClonesAreExact(p, b, ids, keep, d);
    }
    if keep {
      EntryIsExact(p, b, ids);
    }
    assert v'.flight == (v.flight - {b}) + (map d | d in ids :: v.flight[b]);
    assert v'.store == if keep then v.store[b := v.flight[b]] else v.store;
  }

  /** The bytes of a reply, in the three cases. */
  lemma SmallReply(cs: Buf, d: Buf)
    requires InBounds(cs) && IsSmall(cs) && CanTake(d)
    ensures var r := d.(data := Write(d.data, d.cur, Current(cs)), len := cs.len, small := true);
      InBounds(r) && Current(r) == Current(cs)
  {
    hide Current;
    assert InBounds(cs) && |Current(cs)| == cs.len;
    ReplyHead(d, Current(cs));
  }

  lemma ReplyHead(d: Buf, bytes: seq<Byte>)
    requires CanTake(d) && |bytes| <= 2 * HEAD
    ensures forall next, small :: var r := d.(data := Write(d.data, d.cur, bytes), len := |bytes|, small := small, next := next);
      InBounds(r) && Current(r) == bytes
  {
    hide Write;
  }

  lemma LargeReply(cs: Buf, n: nat)
    requires InBounds(cs) && HEAD <= cs.cur && !cs.small
    ensures InBounds(Retreat(cs)) && |Current(Retreat(cs))| >= HEAD
    ensures Current(Retreat(cs))[..HEAD] + Current(cs.(refs := n)) == Cached(cs)
    ensures var c := Advance(Copy(Retreat(cs))).(refs := n);
      InBounds(c) && Current(Retreat(cs))[..HEAD] + Current(c) == Cached(cs) && HEAD <= c.cur && Cached(c) == Cached(cs)
  {
    hide Block;
    RetreatBytes(cs);
    var w := Copy(Retreat(cs));
    CopyBytes(Retreat(cs));
    AdvanceBytes(w);
    assert Current(Advance(w).(refs := n)) == Current(Advance(w));
  }

  /** A reply has the bytes of the entry, and the entry keeps them. */
  lemma ReplyIsExact(p: Pool, c: Id, dest: Id, spare: Id)
    requires Inv(p) && Enabled(p, Hit(c, dest, spare)) && Inv(Next(p, Hit(c, dest, spare)))
    ensures var q := Next(p, Hit(c, dest, spare)); ViewOf(q).flight[dest] == ViewOf(p).store[c]
    ensures var q := Next(p, Hit(c, dest, spare)); ViewOf(q).store[HitHolds(p.mem, c, spare)] == ViewOf(p).store[c]
  {
    hide ViewOf, Write, Current, Block, Copy, Advance, Retreat, Sharers, Cached;
    HitIsPossible(p, c, dest, spare);
    var q := Next(p, Hit(c, dest, spare));
    ViewKeys(p);
    ViewKeys(q);
    var cs, d := p.mem[c], p.mem[dest];
    var held := HitHolds(p.mem, c, spare);
    ViewEntry(p, c);
    ViewEntry(q, held);
    if cs.small {
      SmallReply(cs, d);
      SmallCached(cs);
      ViewSingle(q, dest);
    } else {
      LargeReply(cs, q.mem[held].refs);
      ReplyHead(d, Current(Retreat(cs))[..HEAD]);
      ViewChained(q, dest, held);
      SameCached(cs, q.mem[c]);
    }
  }

  lemma SmallCached(b: Buf)
    requires InBounds(b) && b.small
    ensures Cached(b) == Current(b)
  {
  }

  lemma SameCached(b: Buf, b': Buf)
    requires SameBytes(b, b') && InBounds(b) && (b.small || HEAD <= b.cur)
    ensures Cached(b') == Cached(b)
  {
  }

  lemma HitRest(p: Pool, c: Id, dest: Id, spare: Id)
    requires Inv(p) && Enabled(p, Hit(c, dest, spare)) && Inv(Next(p, Hit(c, dest, spare)))
    ensures var v, v' := ViewOf(p), ViewOf(Next(p, Hit(c, dest, spare)));
      && v.flight.Keys == p.flight && v.store.Keys == p.store
      && v'.flight.Keys == p.flight && v'.store.Keys == p.store - {c} + {HitHolds(p.mem, c, spare)}
      && (forall h | h in p.flight && h != dest :: v'.flight[h] == v.flight[h])
      && (forall d | d in p.store && d != c :: d != spare && v'.store[d] == v.store[d])
  {
    hide GoodTail, GoodHead, HitMem, ViewOf, Current, CanTake;
    HitIsPossible(p, c, dest, spare);
    Replied(p, c, dest, spare);
    var q := Next(p, Hit(c, dest, spare));
    ViewKeys(p);
    ViewKeys(q);
    OthersStay(p, q, {dest});
  }

  lemma HitFollows(p: Pool, c: Id, dest: Id, spare: Id)
    requires Inv(p) && Enabled(p, Hit(c, dest, spare)) && Inv(Next(p, Hit(c, dest, spare)))
    ensures Follows(ViewOf(p), Hit(c, dest, spare), ViewOf(Next(p, Hit(c, dest, spare))))
  {
    hide GoodTail, GoodHead, Next, ViewOf;
    HitRest(p, c, dest, spare);
    ReplyIsExact(p, c, dest, spare);
    var v, v' := ViewOf(p), ViewOf(Next(p, Hit(c, dest, spare)));
    assert v'.flight == v.flight[dest := v.store[c]];
    if HitHolds(p.mem, c, spare) == c {
      assert v'.store == v.store;
    } else {
      assert v'.store == (v.store - {c})[spare := v.store[c]];
    }
  }

  /** Sharing buffers is not seen: every step does to the bytes of packets and entries
      what it does when each has a copy of its own. */
  lemma StepFollows(p: Pool, step: Step)
    requires Inv(p) && Enabled(p, step)
    ensures Inv(Next(p, step)) && Follows(ViewOf(p), step, ViewOf(Next(p, step)))
  {
    hide Follows, Inv, ViewOf;
    StepKeeps(p, step);
    match step
    case Arrive(b, data, cur, len) => ArriveFollows(p, b, data, cur, len);
    case Satisfy(b, ids, keep) => SatisfyFollows(p, b, ids, keep);
    case Hit(c, dest, spare) => HitFollows(p, c, dest, spare);
    case Rewrite(h, off, bytes) => RewriteFollows(p, h, off, bytes);
    case Transmit(h) => TransmitFollows(p, h);
    case Evict(c) => EvictFollows(p, c);
  }

  // ---------------------------------------------------------------------------- runs

  ghost predicate Runs(p: Pool, steps: seq<Step>)
    requires Inv(p)
    decreases |steps|
  {
    steps == [] || (Enabled(p, steps[0]) && (StepKeeps(p, steps[0]); Runs(Next(p, steps[0]), steps[1..])))
  }

  ghost function Final(p: Pool, steps: seq<Step>): (q: Pool)
    requires Inv(p) && Runs(p, steps)
    ensures Inv(q)
    decreases |steps|
  {
    if steps == [] then p else
      StepKeeps(p, steps[0]);
      Final(Next(p, steps[0]), steps[1..])
  }

  /** After any run the eight-bit count of a shared buffer is the number of clones and
      entries that refer to it. */
  lemma CountsAreExact(p: Pool, steps: seq<Step>, t: Id)
    requires Inv(p) && Runs(p, steps)
    requires var q := Final(p, steps); t in q.mem && t !in q.flight
    ensures var q := Final(p, steps); q.flight <= q.mem.Keys && q.mem[t].refs == Holders(q, t) && 1 <= q.mem[t].refs <= 255
  {
    assert GoodTail(Final(p, steps), t);
  }

  /** The same run on packets that share nothing. */
  ghost predicate FollowsRun(v: View, steps: seq<Step>, v': View)
    decreases |steps|
  {
    if steps == [] then v' == v else exists w :: Follows(v, steps[0], w) && FollowsRun(w, steps[1..], v')
  }

  /** Over any run, sharing buffers is not seen. */
  lemma {:induction false} RunFollows(p: Pool, steps: seq<Step>)
    requires Inv(p) && Runs(p, steps)
    ensures FollowsRun(ViewOf(p), steps, ViewOf(Final(p, steps)))
    decreases |steps|
  {
    if steps != [] {
      hide Follows, ViewOf, Inv;
      StepFollows(p, steps[0]);
      RunFollows(Next(p, steps[0]), steps[1..]);
    }
  }

  /** The buffer that an entry holds after a step. */
  ghost function Holder(p: Pool, step: Step, c: Id): Id
    requires c in p.mem
  {
    if step.Hit? && step.c == c then HitHolds(p.mem, c, step.spare) else c
  }

  lemma StepReplays(p: Pool, step: Step, c: Id)
    requires Inv(p) && Enabled(p, step) && c in p.store && step != Evict(c)
    ensures Inv(Next(p, step)) && Holder(p, step, c) in Next(p, step).store
    ensures ViewOf(Next(p, step)).store[Holder(p, step, c)] == ViewOf(p).store[c]
  {
    hide ViewOf, Next, GoodTail, GoodHead, HitHolds;
    StepFollows(p, step);
    ViewKeys(p);
    ViewKeys(Next(p, step));
    if step.Hit? && step.c == c {
      HitKept(p, c, step.dest, step.spare);
      ReplyIsExact(p, c, step.dest, step.spare);
    }
  }

  lemma HitKept(p: Pool, c: Id, dest: Id, spare: Id)
    requires Inv(p) && Enabled(p, Hit(c, dest, spare))
    ensures HitHolds(p.mem, c, spare) in Next(p, Hit(c, dest, spare)).store
  {
  }

  /** The entry is not evicted during the run. */
  ghost predicate Stays(p: Pool, steps: seq<Step>, c: Id)
    requires Inv(p) && Runs(p, steps) && c in p.mem
    decreases |steps|
  {
    steps == [] || (
      && steps[0] != Evict(c)
      && Holder(p, steps[0], c) in Next(p, steps[0]).mem
      && (StepKeeps(p, steps[0]); Stays(Next(p, steps[0]), steps[1..], Holder(p, steps[0], c))))
  }

  /** The buffer an entry holds after a run. */
  ghost function HolderAfter(p: Pool, steps: seq<Step>, c: Id): Id
    requires Inv(p) && Runs(p, steps) && c in p.mem && Stays(p, steps, c)
    decreases |steps|
  {
    if steps == [] then c else
      StepKeeps(p, steps[0]);
      HolderAfter(Next(p, steps[0]), steps[1..], Holder(p, steps[0], c))
  }

  /** Whatever is sent, rewritten, freed or cached meanwhile, an entry that is not
      evicted keeps its bytes. */
  lemma {:induction false} EntryReplays(p: Pool, steps: seq<Step>, c: Id)
    requires Inv(p) && Runs(p, steps) && c in p.store && Stays(p, steps, c)
    ensures var q := Final(p, steps); var d := HolderAfter(p, steps, c);
      d in q.store && ViewOf(q).store[d] == ViewOf(p).store[c]
    decreases |steps|
  {
    if steps != [] {
      StepReplays(p, steps[0], c);
      EntryReplays(Next(p, steps[0]), steps[1..], Holder(p, steps[0], c));
    }
  }

  // ------------------------------------------------------------------------ the code

  /** Arithmetic on an eight-bit counter. */
  function U8(x: int): nat {
    x % 256
  }

  /** Copies, or clone heads, in new buffers. */
  function Clones(mem: map<Id, Buf>, s: Buf, src: Id, ids: seq<Id>): map<Id, Buf>
    requires InBounds(s)
  {
    if IsSmall(s) then mem + map d | d in ids :: Copy(s) else mem + map d | d in ids :: Head(s, src)
  }

  lemma OneMore(mem: map<Id, Buf>, s: Buf, src: Id, ids: seq<Id>, i: nat)
    requires InBounds(s) && i < |ids|
    ensures Clones(mem, s, src, ids[..i + 1]) == Clones(mem, s, src, ids[..i])[ids[i] := if IsSmall(s) then Copy(s) else Head(s, src)]
  {
    hide Copy, Head;
    assert ids[..i + 1] == ids[..i] + [ids[i]];
    assert forall d :: d in ids[..i + 1] <==> d in ids[..i] || d == ids[i];
  }

  lemma ClonesNone(mem: map<Id, Buf>, s: Buf, src: Id)
    requires InBounds(s)
    ensures Clones(mem, s, src, []) == mem
  {
  }

  /** The source's own count does not show in its clones. */
  lemma ClonesKeep(mem: map<Id, Buf>, s: Buf, src: Id, ids: seq<Id>, n: nat, b: Buf)
    requires InBounds(s) && src in mem && src !in ids && mem[src] == s
    ensures var r := Clones(mem[src := s.(refs := n)], s.(refs := n), src, ids);
      src in r && r[src] == s.(refs := n) && r[src := b] == Clones(mem, s, src, ids)[src := b]
  {
  }

  lemma KeptMem(mem: map<Id, Buf>, b: Id, ids: seq<Id>)
    requires b in mem && InBounds(mem[b]) && b !in ids
    ensures var s := mem[b];
      SatisfyMem(mem, b, ids, true) ==
        if IsSmall(s) then Clones(mem[b := s.(small := true)], s.(small := true), b, ids)[b := s.(small := true)]
        else Clones(mem, s, b, ids)[b := Advance(s).(refs := |ids| + 1)]
  {
    hide Copy, Head;
  }

  lemma GivenUpMem(mem: map<Id, Buf>, b: Id, ids: seq<Id>)
    requires b in mem && InBounds(mem[b]) && b !in ids && |ids| <= 253 && !mem[b].small
    ensures var s, kept := mem[b], SatisfyMem(mem, b, ids, true);
      && b in kept && (kept[b].small <==> IsSmall(s)) && (!IsSmall(s) ==> kept[b].refs == |ids| + 1)
      && SatisfyMem(mem, b, ids, false) == if IsSmall(s) then kept - {b} else kept[b := kept[b].(refs := |ids|)]
  {
    hide Copy, Head;
  }

  class BufferManager {
    var mem: map<Id, Buf>

    constructor ()
      ensures mem == map[]
    {
      mem := map[];
    }

    /** `vlib_buffer_clone_256_2`. */
    method Clone256(src: Id, ids: seq<Id>)
      requires src in mem && InBounds(mem[src]) && src !in ids
      modifies this
      ensures mem == if IsSmall(old(mem)[src]) then Clones(old(mem), old(mem)[src], src, ids)
                     else Clones(old(mem), old(mem)[src], src, ids)[src := Advance(old(mem)[src]).(refs := |ids|)]
    {
      hide Clones, Copy, Head;
      var s := mem[src];
      ClonesNone(mem, s, src);
      var i := 0;
      if IsSmall(s) {
        while i < |ids|
          invariant i <= |ids| && mem == Clones(old(mem), s, src, ids[..i])
        {
          OneMore(old(mem), s, src, ids, i);
          mem := mem[ids[i] := Copy(s)];
          i := i + 1;
        }
      } else {
        while i < |ids|
          invariant i <= |ids| && mem == Clones(old(mem), s, src, ids[..i])
        {
          OneMore(old(mem), s, src, ids, i);
          mem := mem[ids[i] := Head(s, src)];
          i := i + 1;
        }
        mem := mem[src := Advance(s).(refs := |ids|)];
      }
      assert ids[..i] == ids;
    }

    /** `vlib_buffer_clone2`, as far as its count has room for all clones. */
    method Clone2(src: Id, ids: seq<Id>)
      requires src in mem && InBounds(mem[src]) && src !in ids && 1 <= mem[src].refs <= 255 && |ids| <= 255 - mem[src].refs
      modifies this
      ensures var s := old(mem)[src];
        mem == if IsSmall(s) then Clones(old(mem), s, src, ids)[src := s]
               else Clones(old(mem), s, src, ids)[src := Advance(s).(refs := s.refs + |ids| - 1)]
    {
      hide Clones, Copy, Head;
      ghost var before := mem;
      var s := mem[src];
      mem := mem[src := s.(refs := 1)];
      Clone256(src, ids);
      ClonesKeep(before, s, src, ids, 1, if IsSmall(s) then s else Advance(s).(refs := s.refs + |ids| - 1));
      mem := mem[src := mem[src].(refs := U8(mem[src].refs + s.refs - 1))];
    }

    /** `hicn_satisfy_faces`. */
    method SatisfyFaces(b: Id, ids: seq<Id>)
      requires b in mem && InBounds(mem[b]) && b !in ids && mem[b].refs == 1 && 1 <= |ids| <= 253
      modifies this
      ensures mem == SatisfyMem(old(mem), b, ids, true)
    {
      hide Copy, Head, Clones, SatisfyMem;
      ghost var before := mem;
      var s := mem[b];
      KeptMem(before, b, ids);
      if IsSmall(s) {
        mem := mem[b := s.(small := true)];
      } else {
        mem := mem[b := s.(refs := U8(s.refs + 1))];
        ClonesKeep(before, s, b, ids, 2, Advance(s).(refs := |ids| + 1));
      }
      Clone2(b, ids);
    }

    /** Data that satisfies faces and is kept in the content store, or given up. */
    method ForwardData(b: Id, ids: seq<Id>, keep: bool)
      requires b in mem && InBounds(mem[b]) && b !in ids && mem[b].refs == 1 && !mem[b].small && 1 <= |ids| <= 253
      modifies this
      ensures mem == SatisfyMem(old(mem), b, ids, keep)
    {
      hide Copy, Head, Clones, SatisfyMem;
      GivenUpMem(mem, b, ids);
      SatisfyFaces(b, ids);
      if !keep {
        if mem[b].small {
          mem := mem - {b};
        } else {
          mem := mem[b := mem[b].(refs := U8(mem[b].refs - 1))];
        }
      }
    }

    /** `clone_from_cs`. */
    method CloneFromCs(c: Id, dest: Id, spare: Id) returns (held: Id)
      requires CanHit(mem, c, dest) && spare !in mem && 1 <= mem[c].refs <= 255
      modifies this
      ensures mem == HitMem(old(mem), c, dest, spare) && held == HitHolds(old(mem), c, spare)
    {
      hide Write, Block;
      var cs, d := mem[c], mem[dest];
      held := c;
      if cs.small {
        mem := mem[dest := d.(data := Write(d.data, d.cur, Current(cs)), len := cs.len, small := true)];
      } else {
        cs := Retreat(cs);
        if cs.refs == 255 {
          mem := mem[spare := Copy(cs)];
          held := spare;
          cs := Advance(cs);
          mem := mem[c := cs.(refs := U8(cs.refs - 1))];
          cs := mem[spare];
        }
        var head := Write(d.data, d.cur, Current(cs)[..HEAD]);
        cs := Advance(cs);
        mem := mem[held := cs.(refs := U8(cs.refs + 1))];
        mem := mem[dest := d.(data := head, len := HEAD, small := false, next := Some(held))];
      }
    }
  }
}
