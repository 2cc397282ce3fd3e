/** The life of PIT and CS entries under any interleaving of packets
    (hicn-plugin/src/pcs.h, state.h and the graph nodes that use them).

    The table is seen through its handles only (see module HashTable for how
    chains of buckets implement that).  Each graph node works on one packet in
    one atomic step; between its steps a packet keeps a ticket: the handle and
    node id written into its buffer by the lookup.

    Four history fields do not exist in the program and never influence it:
    `clock` and `born` tell apart two entries that use the same slot at
    different times, `extra` counts the surplus locks an entry was given, and
    `leaked` counts pending-interest entries freed without being uncounted. */
module Pcs {
  import opened Lists
  import opened Table

  // ------------------------------------------------------------------------ state

  /** The part of a node that is a union in C: a pending interest with the faces
      it came from and their bucket of the face pool, or a cached packet. */
  datatype Data =
    | Pit(faces: seq<nat>, bucket: nat, expire: int)
    | Cs(buf: Option<nat>, rxFace: nat, expire: int)

  /** A node in the table: its entry, its name, its data. */
  datatype Node = Node(at: Handle, name: nat, data: Data)

  /** What a packet remembers of the entry it has locked. */
  datatype Ticket = Ticket(h: Handle, node: nat, born: nat)

  datatype Stage =
    | Arrived
    | AtStrategy
    | AtHitPit(ticket: Ticket)
    | AtHitCs(ticket: Ticket)
    | AtDataFwd(ticket: Ticket)
  {
    predicate Holds(h: Handle) {
      (AtHitPit? || AtHitCs? || AtDataFwd?) && ticket.h == h
    }
  }

  datatype Packet = Packet(isData: bool, hash: nat, name: nat, face: nat, stage: Stage)

  datatype History = History(clock: nat, born: map<Handle, nat>, extra: map<Handle, nat>, leaked: nat)

  /** `faceBuckets` maps each face bucket in use to the node that owns it and
      `buffers` each cached packet buffer to its node.  Packets in flight are
      indexed by their buffer. */
  datatype State = State(
    entries: map<Handle, Entry>,
    nodes: map<nat, Node>,
    pitCount: int,
    csCount: int,
    lru: seq<nat>,
    max: nat,
    nodeCount: nat,
    faceBuckets: map<nat, nat>,
    buffers: map<nat, nat>,
    packets: map<nat, Packet>,
    history: History)

  // -------------------------------------------------------------------- invariant

  /** Entries and nodes point at each other, and agree on PIT or CS. */
  ghost predicate Paired(s: State) {
    && (forall h | h in s.entries ::
          s.entries[h].node in s.nodes && s.nodes[s.entries[h].node].at == h)
    && (forall n | n in s.nodes ::
          && s.nodes[n].at in s.entries
          && s.entries[s.nodes[n].at].node == n
          && s.entries[s.nodes[n].at].isCs == s.nodes[n].data.Cs?)
  }

  /** Each pending interest owns one face bucket and no other is in use. */
  ghost predicate OwnsFaces(s: State) {
    && (forall n | n in s.nodes && s.nodes[n].data.Pit? ::
          s.nodes[n].data.bucket in s.faceBuckets && s.faceBuckets[s.nodes[n].data.bucket] == n)
    && (forall b | b in s.faceBuckets ::
          && s.faceBuckets[b] in s.nodes
          && s.nodes[s.faceBuckets[b]].data.Pit?
          && s.nodes[s.faceBuckets[b]].data.bucket == b)
  }

  /** Each cached packet owns one buffer that is not in flight, and the cache has
      no other. */
  ghost predicate OwnsBuffers(s: State) {
    && (forall n | n in s.nodes && s.nodes[n].data.Cs? ::
          && s.nodes[n].data.buf.Some?
          && s.nodes[n].data.buf.value in s.buffers
          && s.buffers[s.nodes[n].data.buf.value] == n)
    && (forall b | b in s.buffers ::
          && b !in s.packets
          && s.buffers[b] in s.nodes
          && s.nodes[s.buffers[b]].data.Cs?
          && s.nodes[s.buffers[b]].data.buf == Some(b))
  }

  ghost predicate Owned(s: State) {
    OwnsFaces(s) && OwnsBuffers(s)
  }

  /** A pending interest never runs out of faces. */
  ghost predicate Faced(s: State) {
    forall n | n in s.nodes && s.nodes[n].data.Pit? :: s.nodes[n].data.faces != []
  }

  /** The LRU list holds the cached entries that are not marked deleted. */
  ghost predicate Listed(s: State)
    requires Paired(s)
  {
    && NoDuplicates(s.lru)
    && (forall n :: n in s.lru <==> n in s.nodes && s.nodes[n].data.Cs? && !s.entries[s.nodes[n].at].deleted)
    && s.csCount == |s.lru|
  }

  /** A ticket still denotes the entry and the node it was issued for. */
  ghost predicate Current(s: State, t: Ticket, hash: nat) {
    && t.h in s.entries
    && s.entries[t.h].node == t.node
    && s.entries[t.h].hash == hash
    && t.h in s.history.born && s.history.born[t.h] == t.born
  }

  ghost predicate Ticketed(s: State) {
    forall b | b in s.packets ::
      match s.packets[b].stage
      case Arrived => true
      case AtStrategy => true
      case AtHitPit(t) => Current(s, t, s.packets[b].hash)
      case AtHitCs(t) => Current(s, t, s.packets[b].hash) && s.entries[t.h].isCs
      case AtDataFwd(t) => Current(s, t, s.packets[b].hash)
  }

  /** The packets that hold an entry. */
  function Holders(packets: map<nat, Packet>, h: Handle): set<nat> {
    set b | b in packets && packets[b].stage.Holds(h)
  }

  function Cur(cur: Option<Handle>, h: Handle): nat {
    if cur == Some(h) then 1 else 0
  }

  /** An entry has one lock per holder, one for the running graph node if it
      works on this entry, and its surplus locks. */
  ghost predicate Locked(s: State, cur: Option<Handle>) {
    && s.history.extra.Keys == s.entries.Keys
    && s.history.born.Keys == s.entries.Keys
    && (forall h | h in s.entries ::
          && h in s.history.extra && h in s.history.born
          && s.history.born[h] < s.history.clock
          && s.entries[h].locks == |Holders(s.packets, h)| + Cur(cur, h) + s.history.extra[h])
    && (cur.Some? ==> cur.value in s.entries)
  }

  /** The count of pending interests is off by exactly those that were freed
      without being uncounted. */
  ghost predicate Counted(s: State) {
    s.pitCount == |s.faceBuckets| + s.history.leaked
  }

  /** The invariant; `cur` is the entry the running graph node has taken over
      from its packet, if any. */
  ghost predicate Inv(s: State, cur: Option<Handle>) {
    Ordered(s) && Locked(s, cur) && Counted(s)
  }

  /** The part of the invariant that is not about numbers of locks. */
  ghost predicate Ordered(s: State) {
    Paired(s) && Owned(s) && Faced(s) && Listed(s) && Ticketed(s)
  }

  // -------------------------------------------------------------- pcs.h operations

  /** Overwriting an entry through its pointer. */
  function PutEntry(s: State, h: Handle, e: Entry): State {
    s.(entries := s.entries[h := e])
  }

  /** Free an entry, its node and what the node owns. */
  function DeleteInternal(s: State, h: Handle): State
    requires h in s.entries && s.entries[h].node in s.nodes
    requires var d := s.nodes[s.entries[h].node].data;
      if s.entries[h].isCs then d.Cs? && d.buf.Some? else d.Pit?
  {
    var n := s.entries[h].node;
    var d := s.nodes[n].data;
    var s1 := if s.entries[h].isCs then s.(buffers := s.buffers - {d.buf.value})
              else s.(faceBuckets := s.faceBuckets - {d.bucket});
    s1.(entries := s.entries - {h}, nodes := s.nodes - {n},
        history := s.history.(born := s.history.born - {h}, extra := s.history.extra - {h}))
  }

  /** An entry that can be freed. */
  predicate Deletable(s: State, h: Handle) {
    && h in s.entries && s.entries[h].node in s.nodes
    && var d := s.nodes[s.entries[h].node].data;
       if s.entries[h].isCs then d.Cs? && d.buf.Some? else d.Pit?
  }

  /** Take one lock off an entry. */
  function Unlock(s: State, h: Handle): State
    requires h in s.entries && s.entries[h].locks > 0
  {
    PutEntry(s, h, s.entries[h].(locks := s.entries[h].locks - 1))
  }

  /** One more pending interest is freed without being uncounted. */
  function Leak(s: State): State {
    s.(history := s.history.(leaked := s.history.leaked + 1))
  }

  /** Drop a lock; free an entry marked deleted with its last lock. */
  function RemoveLock(s: State, h: Handle): State
    requires Deletable(s, h) && s.entries[h].locks > 0
  {
    var s1 := Unlock(s, h);
    if s1.entries[h].locks == 0 && s1.entries[h].deleted then
      DeleteInternal(if s.entries[h].isCs then s1 else Leak(s1), h)
    else
      s1
  }

  /** Mark an entry deleted. */
  function MarkDeleted(s: State, h: Handle): State
    requires h in s.entries
  {
    PutEntry(s, h, s.entries[h].(deleted := true))
  }

  /** Drop a lock and delete a pending interest, now or with its last lock. */
  function PitDelete(s: State, h: Handle): State
    requires Deletable(s, h) && s.entries[h].locks > 0
  {
    var s1 := Unlock(s, h);
    if s1.entries[h].locks == 0 then DeleteInternal(s1.(pitCount := s1.pitCount - 1), h)
    else MarkDeleted(s1, h)
  }

  function Without(q: seq<nat>, n: nat): seq<nat> {
    if q == [] then [] else if q[0] == n then q[1..] else [q[0]] + Without(q[1..], n)
  }

  /** Take a node off the LRU list and uncount it. */
  function Dequeue(s: State, n: nat): State {
    s.(lru := Without(s.lru, n), csCount := s.csCount - 1)
  }

  /** Drop a lock and delete a cached packet, now or with its last lock. */
  function CsDelete(s: State, h: Handle): State
    requires Deletable(s, h) && s.entries[h].locks > 0
  {
    var s0 := if s.entries[h].deleted then s else Dequeue(s, s.entries[h].node);
    var s1 := Unlock(s0, h);
    if s1.entries[h].locks == 0 then DeleteInternal(s1, h) else MarkDeleted(s1, h)
  }

  function Delete(s: State, h: Handle): State
    requires Deletable(s, h) && s.entries[h].locks > 0
  {
    if s.entries[h].isCs then CsDelete(s, h) else PitDelete(s, h)
  }

  /** Delete an entry that is off the LRU list, now if nobody holds it. */
  function DeleteTrimmed(s: State, h: Handle): State
    requires h in s.entries && (s.entries[h].locks == 0 ==> Deletable(s, h))
  {
    if s.entries[h].locks == 0 then DeleteInternal(s, h) else MarkDeleted(s, h)
  }

  predicate Evictable(s: State) {
    |s.lru| > s.max ==>
      var n := s.lru[|s.lru| - 1];
      && n in s.nodes && s.nodes[n].at in s.entries
      && (s.entries[s.nodes[n].at].locks == 0 ==> Deletable(s, s.nodes[n].at))
  }

  /** Evict the entry at the tail of the LRU list if the list is over its limit. */
  function Evict(s: State): State
    requires Evictable(s)
  {
    if |s.lru| > s.max then
      var n := s.lru[|s.lru| - 1];
      DeleteTrimmed(Dequeue(s, n), s.nodes[n].at)
    else
      s
  }

  /** The entry stops being a pending interest and starts being a cached packet:
      its face bucket is given back, and it enters the LRU list at the head. */
  function Convert(s: State, h: Handle, buf: Option<nat>, rxFace: nat, expire: int): State
    requires h in s.entries && s.entries[h].node in s.nodes && s.nodes[s.entries[h].node].data.Pit?
  {
    var n := s.entries[h].node;
    var d := s.nodes[n].data;
    s.(pitCount := s.pitCount - 1,
       faceBuckets := s.faceBuckets - {d.bucket},
       entries := s.entries[h := s.entries[h].(isCs := true)],
       nodes := s.nodes[n := s.nodes[n].(data := Cs(buf, rxFace, expire))],
       buffers := if buf.Some? then s.buffers[buf.value := n] else s.buffers,
       lru := [n] + s.lru,
       csCount := s.csCount + 1)
  }

  /** Convert an entry and make room for it in the cache. */
  function PitToCs(s: State, h: Handle, rxFace: nat): State
    requires h in s.entries && s.entries[h].node in s.nodes && s.nodes[s.entries[h].node].data.Pit?
    requires Evictable(Convert(s, h, None, rxFace, s.nodes[s.entries[h].node].data.expire))
  {
    Evict(Convert(s, h, None, rxFace, s.nodes[s.entries[h].node].data.expire))
  }

  /** The converted entry gets the data packet's buffer and lifetime. */
  function StoreBuffer(s: State, h: Handle, buf: nat, expire: int): State
    requires h in s.entries && s.entries[h].node in s.nodes && s.nodes[s.entries[h].node].data.Cs?
  {
    var n := s.entries[h].node;
    s.(nodes := s.nodes[n := s.nodes[n].(data := s.nodes[n].data.(buf := Some(buf), expire := expire))],
       buffers := s.buffers[buf := n])
  }

  /** Move a node to the head of the LRU list. */
  function Touch(s: State, n: nat): State {
    s.(lru := [n] + Without(s.lru, n))
  }

  /** Remember one more face a pending interest came from. */
  function AddFace(s: State, n: nat, face: nat): State
    requires n in s.nodes && s.nodes[n].data.Pit?
  {
    var d := s.nodes[n].data;
    s.(nodes := s.nodes[n := s.nodes[n].(data := d.(faces := d.faces + [face]))])
  }

  /** The two locks an insert takes on a pending interest it finds in its way: one
      in the table's insert, one in the strategy node.  Only one will be dropped. */
  function LockTwice(s: State, h: Handle): State
    requires h in s.entries
  {
    var extra := if h in s.history.extra then s.history.extra[h] else 0;
    PutEntry(s, h, s.entries[h].(locks := s.entries[h].locks + 2))
    .(history := s.history.(extra := s.history.extra[h := extra + 1]))
  }

  /** A pending interest enters the table with its node and its face bucket. */
  function NewPit(s: State, h: Handle, e: Entry, name: nat, face: nat, bucket: nat, expire: int): State {
    s.(entries := s.entries[h := e],
       nodes := s.nodes[e.node := Node(h, name, Pit([face], bucket, expire))],
       faceBuckets := s.faceBuckets[bucket := e.node],
       pitCount := s.pitCount + 1,
       history := s.history.(clock := s.history.clock + 1,
                             born := s.history.born[h := s.history.clock],
                             extra := s.history.extra[h := 0]))
  }

  /** A cached packet whose buffer cannot take another reference is copied, and the
      copy takes its place. */
  function SwapBuffer(s: State, n: nat, buf: nat): State
    requires n in s.nodes && s.nodes[n].data.Cs? && s.nodes[n].data.buf.Some?
  {
    s.(nodes := s.nodes[n := s.nodes[n].(data := s.nodes[n].data.(buf := Some(buf)))],
       buffers := (s.buffers - {s.nodes[n].data.buf.value})[buf := n])
  }
}
