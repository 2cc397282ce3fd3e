/** The operations of the PIT/CS hash table (hicn-plugin/src/hashtb.c) on the
    layout of module Table, with `USE_SEVEN` off: the last slot of a bucket is
    only ever a link. */
module HashTable {
  import opened Lists
  import opened Table

  /** A node: the name it stores (its identity) and where its entry is. */
  datatype Node = Node(key: nat, place: Option<Handle>)

  datatype InsertResult = Inserted(h: Handle) | Exist(h: Handle) | NoMem

  // ------------------------------------------------------------------ chain walks

  /** An index of a pool that is not in use.  Index 0 is never handed out. */
  method PoolGet(used: set<nat>) returns (id: nat)
    ensures id !in used && id != 0
  {
    id := 1;
    var rest := used;
    while rest != {}
      invariant rest <= used && id != 0
      invariant forall x | x in used && x !in rest :: x < id
      decreases rest
    {
      var x :| x in rest;
      rest := rest - {x};
      if id <= x {
        id := x + 1;
      }
    }
  }

  /** The lookup loop: slot by slot, then along the link to the next bucket. */
  method WalkForEntry(s: Store, ghost sh: Shape, start: Ref, hash: nat, withDeleted: bool)
    returns (r: Option<Handle>)
    requires Linked(s, sh) && start in s.cells
    ensures r == Find(s, sh, start, hash, withDeleted)
  {
    var bucket := start;
    while true
      invariant bucket in s.cells
      invariant Find(s, sh, bucket, hash, withDeleted) == Find(s, sh, start, hash, withDeleted)
      decreases sh.bound - sh.rank[bucket]
    {
      var b := s.cells[bucket];
      var i := 0;
      while i < BUCKET_ENTRIES
        invariant 0 <= i <= BUCKET_ENTRIES
        invariant FindInBucket(b, hash, withDeleted, 0) == FindInBucket(b, hash, withDeleted, i)
      {
        if b[i].deleted && !withDeleted {
        } else if b[i].hash == hash {
          return Some(Handle(bucket, i));
        }
        i := i + 1;
      }
      if !b[LINK].overflow {
        return None;
      }
      assert s.Links(bucket);
      bucket := Over(b[LINK].node);
    }
  }

  /** The insert loop: stop at a live entry with the hash or at the first hole. */
  method WalkForPlace(s: Store, ghost sh: Shape, start: Ref, hash: nat) returns (p: Place)
    requires Linked(s, sh) && start in s.cells
    ensures p == Scan(s, sh, start, hash)
  {
    var bucket := start;
    while true
      invariant bucket in s.cells
      invariant Scan(s, sh, bucket, hash) == Scan(s, sh, start, hash)
      decreases sh.bound - sh.rank[bucket]
    {
      var b := s.cells[bucket];
      var i := 0;
      while i < BUCKET_ENTRIES
        invariant 0 <= i <= BUCKET_ENTRIES
        invariant ScanBucket(b, hash, 0) == ScanBucket(b, hash, i)
      {
        if b[i].deleted {
        } else if b[i].hash == hash {
          return Exists(Handle(bucket, i));
        } else if b[i].hash == 0 && b[i].node == 0 && i != LINK {
          return Free(Handle(bucket, i));
        }
        i := i + 1;
      }
      if !b[LINK].overflow {
        return Extend(bucket);
      }
      assert s.Links(bucket);
      bucket := Over(b[LINK].node);
    }
  }

  /** The search of removal for the bucket that links to an overflow bucket: it
      starts at the row, always finds the parent, and terminates. */
  method WalkForParent(s: Store, ghost sh: Shape, row: nat, b: Ref) returns (p: Ref)
    requires Linked(s, sh) && b in s.cells && b.Over? && row == sh.row[b]
    ensures p in s.cells && p != b && s.Links(p) && s.Next(p) == b
  {
    p := Row(row);
    assert s.Links(sh.parent[b]) && sh.rank[sh.parent[b]] < sh.rank[b];
    while true
      invariant p in s.cells && sh.row[p] == row && sh.rank[p] < sh.rank[b]
      decreases sh.rank[b] - sh.rank[p]
    {
      RowIsOrdered(s, sh, p, b);
      if !s.cells[p][LINK].overflow {
        assert false;
      }
      var next := Over(s.cells[p][LINK].node);
      assert next == s.Next(p);
      if next == b {
        return;
      }
      p := next;
    }
  }

  /** How many slots of a bucket hold a node, the way removal counts them: the
      link is counted and then taken off again. */
  method CountNodes(b: Bucket) returns (count: int, links: bool)
    requires CleanBucket(b)
    ensures count > 0 <==> HoldsNode(b)
    ensures links == b[LINK].overflow
  {
    count, links := 0, false;
    var i := 0;
    while i < BUCKET_ENTRIES
      invariant 0 <= i <= BUCKET_ENTRIES && 0 <= count
      invariant count > 0 <==> exists k :: 0 <= k < i && k < LINK && b[k].node != 0
      invariant links == (i == BUCKET_ENTRIES && b[LINK].overflow)
    {
      if b[i].node != 0 {
        count := count + 1;
      }
      if i == LINK && b[i].overflow {
        count := count - 1;
        links := true;
      }
      i := i + 1;
    }
  }

  // ------------------------------------------------------------- entries and nodes

  /** The entries of a table by handle: all its users see. */
  type Entries = map<Handle, Entry>

  /** The table struct: buckets, the two pools and their counters. */
  datatype Tab = Tab(store: Store, overflowCount: nat, overflowUsed: nat,
                     nodes: map<nat, Node>, nodeCount: nat, nodesUsed: nat)
  {
    /** The row where a hash is looked for. */
    function Start(hash: nat): Ref
      requires store.rows > 0
    {
      Row(RowIndex(hash, store.rows))
    }
  }

  /** `c` lists the occupied slots. */
  ghost predicate Holds(s: Store, c: Entries) {
    forall h :: (h in c <==> s.Occupied(h)) && (h in c ==> c[h] == s.Slot(h))
  }

  /** Each entry's node points back to it. */
  ghost predicate PointsBack(c: Entries, nodes: map<nat, Node>) {
    && 0 in nodes
    && (forall h | h in c :: c[h].node in nodes && nodes[c[h].node].place == Some(h))
  }

  /** The pool counters are the sizes of the pools, hidden elements included. */
  ghost predicate Counted(t: Tab) {
    && t.overflowUsed + t.store.rows == |t.store.cells| + 1
    && t.nodesUsed == |t.nodes|
  }

  ghost predicate Good(t: Tab, sh: Shape, c: Entries) {
    WellFormed(t.store, sh) && Holds(t.store, c) && PointsBack(c, t.nodes) && Counted(t)
  }

  lemma HoldsPut(s: Store, c: Entries, h: Handle, e: Entry)
    requires Holds(s, c) && s.IsSlot(h) && e.node != 0
    ensures Holds(PutSlot(s, h, e), c[h := e])
  {
    PutSlotFrame(s, h, e);
    var s' := PutSlot(s, h, e);
    assert forall g :: s'.Occupied(g) <==> s.Occupied(g) || g == h;
  }

  lemma HoldsClear(s: Store, c: Entries, h: Handle)
    requires Holds(s, c) && s.IsSlot(h)
    ensures Holds(PutSlot(s, h, EMPTY), c - {h})
  {
    PutSlotFrame(s, h, EMPTY);
    var s' := PutSlot(s, h, EMPTY);
    assert forall g :: s'.Occupied(g) <==> s.Occupied(g) && g != h;
  }

  lemma HoldsExtend(s: Store, c: Entries, last: Ref, id: nat, e: Entry)
    requires Holds(s, c) && last in s.cells && Over(id) !in s.cells && e.node != 0
    ensures Holds(ExtendStore(s, last, id, e), c[Handle(Over(id), 0) := e])
  {
    ExtendSlots(s, last, id, e);
  }

  lemma HoldsUnlink(s: Store, c: Entries, p: Ref, b: Ref)
    requires Holds(s, c) && p in s.cells && b in s.cells && p != b && !HoldsNode(s.cells[b])
    ensures Holds(UnlinkStore(s, p, b), c)
  {
    UnlinkSlots(s, p, b);
    var s' := UnlinkStore(s, p, b);
    forall h
      ensures s'.Occupied(h) <==> s.Occupied(h)
    {
      if h.bucket == b && h.slot < LINK {
        assert s.cells[b][h.slot].node == 0;
      }
    }
  }

  lemma PutCount(s: Store, h: Handle, e: Entry)
    requires s.IsSlot(h)
    ensures |PutSlot(s, h, e).cells| == |s.cells|
  {
    assert PutSlot(s, h, e).cells.Keys == s.cells.Keys;
  }

  lemma ExtendCount(s: Store, last: Ref, id: nat, e: Entry)
    requires last in s.cells && Over(id) !in s.cells
    ensures |ExtendStore(s, last, id, e).cells| == |s.cells| + 1
  {
    assert ExtendStore(s, last, id, e).cells.Keys == s.cells.Keys + {Over(id)};
  }

  lemma UnlinkCount(s: Store, p: Ref, b: Ref)
    requires p in s.cells && b in s.cells && p != b
    ensures |UnlinkStore(s, p, b).cells| == |s.cells| - 1
  {
    assert UnlinkStore(s, p, b).cells.Keys == s.cells.Keys - {b};
  }

  /** After a slot is cleared all that can be wrong is that its bucket is empty. */
  lemma ClearedClean(s: Store, sh: Shape, h: Handle)
    requires WellFormed(s, sh) && s.IsSlot(h)
    ensures var s' := PutSlot(s, h, EMPTY);
      && (forall r | r in s'.cells :: CleanBucket(s'.cells[r]) && (r.Over? && r != h.bucket ==> HoldsNode(s'.cells[r])))
      && AtHome(s', sh)
  {
    hide LinksAscend, ParentsLink;
    var s' := PutSlot(s, h, EMPTY);
    assert forall r | r in s.cells :: CleanBucket(s.cells[r]);
    PutSlotFrame(s, h, EMPTY);
    assert forall g | s'.Occupied(g) :: s.Occupied(g);
  }

  // -------------------------------------------------------- effects on the entries

  /** A lookup locks what it finds, unless a data packet found a cached entry. */
  function Looked(c: Entries, h: Handle, isData: bool): Entries
    requires h in c
  {
    if isData && c[h].isCs then c else c[h := c[h].(locks := c[h].locks + 1)]
  }

  /** What an insert may do to the entries. */
  ghost predicate Inserts(c: Entries, e: Entry, c': Entries, r: InsertResult) {
    match r
    case Inserted(h) => h !in c && c' == c[h := e]
    case Exist(h) =>
      && h in c && Matches(c[h], e.hash, false)
      && c' == (if c[h].isCs then c else c[h := c[h].(locks := c[h].locks + 1)])
    case NoMem => (forall h | h in c :: !Matches(c[h], e.hash, false)) && c' == c
  }

  /** And to its node, which points back to its entry. */
  ghost predicate InsertEffect(c: Entries, nodes: map<nat, Node>, e: Entry,
                               c': Entries, nodes': map<nat, Node>, r: InsertResult)
    requires e.node in nodes
  {
    && Inserts(c, e, c', r)
    && nodes' == if r.Inserted? then nodes[e.node := nodes[e.node].(place := Some(r.h))] else nodes
  }

  /** No overflow bucket can be had. */
  predicate NoBucket(t: Tab) {
    t.overflowUsed >= t.overflowCount
  }

  /** The result follows from the place that the scan found; memory is lacking only for a
      bucket at the end of a row without a hole. */
  predicate Follows(p: Place, noBucket: bool, r: InsertResult) {
    match p
    case Exists(h) => r == Exist(h)
    case Free(h) => r == Inserted(h)
    case Extend(_) => if noBucket then r == NoMem else r.Inserted?
  }

  // ------------------------------------------------------------------- operations

  /** Rewriting the lock count, the flags or the strategy of an entry, which the
      PIT/CS code does through a pointer to the entry. */
  function WithEntry(t: Tab, h: Handle, e: Entry): Tab
    requires t.store.IsSlot(h)
  {
    t.(store := PutSlot(t.store, h, e))
  }

  lemma WithEntryGood(t: Tab, sh: Shape, c: Entries, h: Handle, e: Entry)
    requires Good(t, sh, c) && h in c
    requires e.hash == c[h].hash && e.node == c[h].node && !e.overflow
    ensures t.store.IsSlot(h) && Good(WithEntry(t, h, e), sh, c[h := e])
  {
    hide Framed, LinksAscend, ParentsLink;
    assert t.store.Occupied(h);
    PutSlotKeeps(t.store, sh, h, e);
    HoldsPut(t.store, c, h, e);
    PutCount(t.store, h, e);
  }

  lemma FillSlotGood(t: Tab, sh: Shape, c: Entries, h: Handle, e: Entry)
    requires Good(t, sh, c) && t.store.IsSlot(h) && t.store.Slot(h) == EMPTY
    requires e.node in t.nodes && e.node != 0 && t.nodes[e.node].place.None? && e.hash != 0 && !e.overflow
    requires RowIndex(e.hash, t.store.rows) == sh.row[h.bucket]
    ensures var nodes' := t.nodes[e.node := t.nodes[e.node].(place := Some(h))];
      h !in c && Good(WithEntry(t, h, e).(nodes := nodes'), sh, c[h := e])
  {
    hide LinksAscend, ParentsLink, Clean, AtHome;
    assert !t.store.Occupied(h);
    PutSlotKeeps(t.store, sh, h, e);
    HoldsPut(t.store, c, h, e);
    PutCount(t.store, h, e);
    assert t.nodes[e.node := t.nodes[e.node].(place := Some(h))].Keys == t.nodes.Keys;
  }

  lemma AddBucketGood(t: Tab, sh: Shape, c: Entries, last: Ref, id: nat, e: Entry)
    requires Good(t, sh, c) && last in t.store.cells && !t.store.Links(last) && id != 0 && Over(id) !in t.store.cells
    requires e.node in t.nodes && e.node != 0 && t.nodes[e.node].place.None? && e.hash != 0 && !e.overflow
    requires RowIndex(e.hash, t.store.rows) == sh.row[last]
    ensures
      var h := Handle(Over(id), 0);
      var nodes' := t.nodes[e.node := t.nodes[e.node].(place := Some(h))];
      && h !in c
      && Good(t.(store := ExtendStore(t.store, last, id, e), overflowUsed := t.overflowUsed + 1, nodes := nodes'),
              ExtendShape(sh, last, id), c[h := e])
  {
    hide LinksAscend, ParentsLink, Clean, AtHome;
    var h := Handle(Over(id), 0);
    assert !t.store.Occupied(h);
    ExtendKeeps(t.store, sh, last, id, e);
    HoldsExtend(t.store, c, last, id, e);
    ExtendCount(t.store, last, id, e);
    assert t.nodes[e.node := t.nodes[e.node].(place := Some(h))].Keys == t.nodes.Keys;
  }

  /** The overflow buckets in use. */
  function OverflowIds(s: Store): (ids: set<nat>)
    ensures forall id :: id in ids <==> Over(id) in s.cells
  {
    var ids := set r | r in s.cells && r.Over? :: r.id;
    assert forall id | Over(id) in s.cells :: Over(id).id in ids;
    ids
  }

  /** Search the chain of the hash's row. */
  method FindEntry(t: Tab, ghost sh: Shape, ghost c: Entries, hash: nat, withDeleted: bool) returns (r: Option<Handle>)
    requires Good(t, sh, c) && hash != 0
    ensures r == Find(t.store, sh, t.Start(hash), hash, withDeleted)
    ensures r.None? ==> forall h | h in c :: !Matches(c[h], hash, withDeleted)
    ensures r.Some? ==> r.value in c && Matches(c[r.value], hash, withDeleted)
  {
    r := WalkForEntry(t.store, sh, t.Start(hash), hash, withDeleted);
    FindIsComplete(t.store, sh, hash, withDeleted);
  }

  /** Look a hash up and lock the entry. */
  method Lookup(t: Tab, ghost sh: Shape, ghost c: Entries, hash: nat, isData: bool, withDeleted: bool)
    returns (t': Tab, r: Option<Handle>, ghost c': Entries)
    requires Good(t, sh, c) && hash != 0
    ensures Good(t', sh, c') && t'.nodes == t.nodes && t'.store.rows == t.store.rows && t'.nodeCount == t.nodeCount
    ensures r.None? ==> t' == t && c' == c && forall h | h in c :: !Matches(c[h], hash, withDeleted)
    ensures r.Some? ==> r.value in c && Matches(c[r.value], hash, withDeleted) && c' == Looked(c, r.value, isData)
  {
    hide Good;
    r := FindEntry(t, sh, c, hash, withDeleted);
    if r.None? {
      return t, r, c;
    }
    var h := r.value;
    var e := ReadEntry(t, sh, c, h);
    if isData && e.isCs {
      return t, r, c;
    }
    var e' := e.(locks := e.locks + 1);
    WithEntryGood(t, sh, c, h, e');
    return WithEntry(t, h, e'), r, c[h := e'];
  }

  /** Reading an entry through its handle. */
  method ReadEntry(t: Tab, ghost sh: Shape, ghost c: Entries, h: Handle) returns (e: Entry)
    requires Good(t, sh, c) && h in c
    ensures e == c[h] && e.node != 0 && e.hash != 0 && !e.overflow
  {
    assert t.store.Occupied(h) && CleanBucket(t.store.cells[h.bucket]);
    e := t.store.Slot(h);
  }

  /** A place for a hash: a live entry that has it, an unused slot of its row, or
      the end of its row if no live entry has it. */
  ghost predicate Suits(t: Tab, sh: Shape, c: Entries, hash: nat, p: Place)
    requires Good(t, sh, c)
  {
    match p
    case Exists(h) => h in c && Matches(c[h], hash, false)
    case Free(h) =>
      t.store.IsSlot(h) && t.store.Slot(h) == EMPTY && sh.row[h.bucket] == RowIndex(hash, t.store.rows)
    case Extend(last) =>
      && last in t.store.cells && !t.store.Links(last) && sh.row[last] == RowIndex(hash, t.store.rows)
      && (forall h | h in c :: !Matches(c[h], hash, false))
  }

  /** Where a hash would be inserted. */
  method FindPlace(t: Tab, ghost sh: Shape, ghost c: Entries, hash: nat) returns (p: Place)
    requires Good(t, sh, c) && hash != 0
    ensures p == Scan(t.store, sh, t.Start(hash), hash)
    ensures Suits(t, sh, c, hash, p)
  {
    p := WalkForPlace(t.store, sh, t.Start(hash), hash);
    ScanRow(t.store, sh, t.Start(hash), hash);
    assert forall h | h in c :: t.store.Occupied(h);
  }

  /** Put a node in the first hole of its row, or in a new overflow bucket if the
      row has none.  A live entry met on the way is reported instead. */
  method Insert(t: Tab, ghost sh: Shape, ghost c: Entries, node: nat, hash: nat, dpo: nat, vft: nat)
    returns (t': Tab, r: InsertResult, ghost sh': Shape, ghost c': Entries)
    requires Good(t, sh, c) && hash != 0
    requires node in t.nodes && node != 0 && t.nodes[node].place.None?
    ensures Good(t', sh', c') && t'.nodeCount == t.nodeCount && t'.store.rows == t.store.rows
    ensures Follows(Scan(t.store, sh, t.Start(hash), hash), NoBucket(t), r)
    ensures InsertEffect(c, t.nodes, NewEntry(node, hash, dpo, vft), c', t'.nodes, r)
    ensures r.NoMem? ==> t' == t
  {
    hide Good;
    var e := NewEntry(node, hash, dpo, vft);
    var place := FindPlace(t, sh, c, hash);
    match place {
      case Exists(h) =>
        t', c' := LockFound(t, sh, c, h);
        return t', Exist(h), sh, c';
      case Free(h) =>
        t', c' := FillSlot(t, sh, c, h, e);
        return t', Inserted(h), sh, c';
      case Extend(last) =>
        if t.overflowUsed >= t.overflowCount {
          return t, NoMem, sh, c;
        }
        var h;
        t', h, sh', c' := AddBucket(t, sh, c, last, e);
        return t', Inserted(h), sh', c';
    }
  }

  /** The hit of an insert takes a lock only on a pending interest. */
  method LockFound(t: Tab, ghost sh: Shape, ghost c: Entries, h: Handle) returns (t': Tab, ghost c': Entries)
    requires Good(t, sh, c) && h in c
    ensures Good(t', sh, c') && t'.nodes == t.nodes && t'.nodeCount == t.nodeCount && t'.store.rows == t.store.rows
    ensures c' == if c[h].isCs then c else c[h := c[h].(locks := c[h].locks + 1)]
  {
    hide Good;
    var e := ReadEntry(t, sh, c, h);
    if e.isCs {
      return t, c;
    }
    var e' := e.(locks := e.locks + 1);
    WithEntryGood(t, sh, c, h, e');
    return WithEntry(t, h, e'), c[h := e'];
  }

  /** Use an empty slot. */
  method FillSlot(t: Tab, ghost sh: Shape, ghost c: Entries, h: Handle, e: Entry) returns (t': Tab, ghost c': Entries)
    requires Good(t, sh, c) && t.store.IsSlot(h) && t.store.Slot(h) == EMPTY
    requires e.node in t.nodes && e.node != 0 && t.nodes[e.node].place.None? && e.hash != 0 && !e.overflow
    requires RowIndex(e.hash, t.store.rows) == sh.row[h.bucket]
    ensures Good(t', sh, c') && h !in c && c' == c[h := e]
    ensures t'.nodes == t.nodes[e.node := t.nodes[e.node].(place := Some(h))] && t'.nodeCount == t.nodeCount
    ensures t'.store.rows == t.store.rows
  {
    FillSlotGood(t, sh, c, h, e);
    t' := WithEntry(t, h, e).(nodes := t.nodes[e.node := t.nodes[e.node].(place := Some(h))]);
    c' := c[h := e];
  }

  /** Hang a new overflow bucket behind the last one of a row. */
  method AddBucket(t: Tab, ghost sh: Shape, ghost c: Entries, last: Ref, e: Entry)
    returns (t': Tab, h: Handle, ghost sh': Shape, ghost c': Entries)
    requires Good(t, sh, c) && last in t.store.cells && !t.store.Links(last)
    requires e.node in t.nodes && e.node != 0 && t.nodes[e.node].place.None? && e.hash != 0 && !e.overflow
    requires RowIndex(e.hash, t.store.rows) == sh.row[last]
    ensures Good(t', sh', c') && h !in c && c' == c[h := e]
    ensures t'.nodes == t.nodes[e.node := t.nodes[e.node].(place := Some(h))] && t'.nodeCount == t.nodeCount
    ensures t'.store.rows == t.store.rows
  {
    var id := PoolGet(OverflowIds(t.store));
    h := Handle(Over(id), 0);
    AddBucketGood(t, sh, c, last, id, e);
    t' := t.(store := ExtendStore(t.store, last, id, e), overflowUsed := t.overflowUsed + 1,
             nodes := t.nodes[e.node := t.nodes[e.node].(place := Some(h))]);
    sh', c' := ExtendShape(sh, last, id), c[h := e];
  }

  lemma ClearGood(t: Tab, sh: Shape, c: Entries, h: Handle)
    requires Good(t, sh, c) && h in c
    ensures t.store.IsSlot(h)
    ensures h.bucket.Row? || HoldsNode(PutSlot(t.store, h, EMPTY).cells[h.bucket]) ==>
              Good(WithEntry(t, h, EMPTY), sh, c - {h})
  {
    assert t.store.Occupied(h);
    PutSlotKeepsChains(t.store, sh, h, EMPTY);
    ClearedClean(t.store, sh, h);
    HoldsClear(t.store, c, h);
    PutCount(t.store, h, EMPTY);
  }

  lemma DropBucketGood(t: Tab, sh: Shape, c: Entries, h: Handle, p: Ref)
    requires Good(t, sh, c) && h in c && h.bucket.Over?
    requires t.store.IsSlot(h)
    requires var s := PutSlot(t.store, h, EMPTY);
      !HoldsNode(s.cells[h.bucket]) && p != h.bucket && s.Links(p) && s.Next(p) == h.bucket
    ensures var s := PutSlot(t.store, h, EMPTY);
      && t.overflowUsed > 0
      && Good(t.(store := UnlinkStore(s, p, h.bucket), overflowUsed := t.overflowUsed - 1),
              UnlinkShape(s, sh, p, h.bucket), c - {h})
  {
    var s := PutSlot(t.store, h, EMPTY);
    PutSlotKeepsChains(t.store, sh, h, EMPTY);
    ClearedClean(t.store, sh, h);
    HoldsClear(t.store, c, h);
    PutCount(t.store, h, EMPTY);
    UnlinkKeeps(s, sh, p, h.bucket);
    HoldsUnlink(s, c - {h}, p, h.bucket);
    UnlinkCount(s, p, h.bucket);
    RowsFit(UnlinkStore(s, p, h.bucket), UnlinkShape(s, sh, p, h.bucket));
  }

  /** There are at least as many buckets as rows. */
  lemma RowsFit(s: Store, sh: Shape)
    requires Framed(s, sh)
    ensures s.rows <= |s.cells|
  {
    RowsFitUpTo(s, s.rows);
  }

  lemma {:induction false} RowsFitUpTo(s: Store, n: nat)
    requires forall i: nat | i < n :: Row(i) in s.cells
    ensures n <= |s.cells|
  {
    var rows := set i: nat | i < n :: Row(i);
    RowSetSize(n);
    assert rows <= s.cells.Keys;
    SubsetSize(rows, s.cells.Keys);
  }

  lemma {:induction false} RowSetSize(n: nat)
    ensures |set i: nat | i < n :: Row(i)| == n
  {
    if n > 0 {
      RowSetSize(n - 1);
      assert (set i: nat | i < n :: Row(i)) == (set i: nat | i < n - 1 :: Row(i)) + {Row(n - 1)};
    }
  }

  /** Clear a node's slot.  If that was the last node of an overflow bucket, take
      the bucket out of its chain and give it back. */
  method RemoveNode(t: Tab, ghost sh: Shape, ghost c: Entries, node: nat, hash: nat)
    returns (t': Tab, ghost sh': Shape, ghost c': Entries)
    requires Good(t, sh, c) && node in t.nodes && t.nodes[node].place.Some?
    requires t.nodes[node].place.value in c
    requires c[t.nodes[node].place.value].node == node && c[t.nodes[node].place.value].hash == hash
    ensures Good(t', sh', c') && c' == c - {t.nodes[node].place.value}
    ensures t'.nodes == t.nodes && t'.store.rows == t.store.rows
    ensures t'.nodesUsed == t.nodesUsed && t'.nodeCount == t.nodeCount
  {
    var h := t.nodes[node].place.value;
    var b := h.bucket;
    assert t.store.Occupied(h);
    ClearGood(t, sh, c, h);
    var s := PutSlot(t.store, h, EMPTY);
    ClearedClean(t.store, sh, h);
    t', sh', c' := WithEntry(t, h, EMPTY), sh, c - {h};
    if b.Over? {
      var count, links := CountNodes(s.cells[b]);
      if count <= 0 {
        PutSlotKeepsChains(t.store, sh, h, EMPTY);
        var p := WalkForParent(s, sh, RowIndex(hash, t.store.rows), b);
        DropBucketGood(t, sh, c, h, p);
        t' := t.(store := UnlinkStore(s, p, b), overflowUsed := t.overflowUsed - 1);
        sh' := UnlinkShape(s, sh, p, b);
      }
    }
  }

  // ------------------------------------------------------------------ the node pool

  method AllocNode(t: Tab, ghost sh: Shape, ghost c: Entries) returns (t': Tab, node: nat)
    requires Good(t, sh, c)
    ensures Good(t', sh, c)
    ensures node == 0 <==> t.nodesUsed >= t.nodeCount
    ensures node == 0 ==> t' == t
    ensures node != 0 ==> node !in t.nodes && t' == t.(nodes := t.nodes[node := Node(0, None)], nodesUsed := t.nodesUsed + 1)
  {
    t', node := t, 0;
    if t.nodesUsed < t.nodeCount {
      node := PoolGet(t.nodes.Keys);
      t' := t.(nodes := t.nodes[node := Node(0, None)], nodesUsed := t.nodesUsed + 1);
    }
  }

  /** A node in use whose entry is not in the table. */
  ghost predicate Detached(t: Tab, c: Entries, node: nat) {
    node in t.nodes && node != 0 && forall h | h in c :: c[h].node != node
  }

  function InitNode(t: Tab, node: nat, key: nat): Tab {
    t.(nodes := t.nodes[node := Node(key, None)])
  }

  lemma InitNodeGood(t: Tab, sh: Shape, c: Entries, node: nat, key: nat)
    requires Good(t, sh, c) && Detached(t, c, node)
    ensures Good(InitNode(t, node, key), sh, c)
  {
    assert InitNode(t, node, key).nodes.Keys == t.nodes.Keys;
  }

  function FreeNode(t: Tab, node: nat): Tab
    requires t.nodesUsed > 0
  {
    t.(nodes := t.nodes - {node}, nodesUsed := t.nodesUsed - 1)
  }

  lemma FreeNodeGood(t: Tab, sh: Shape, c: Entries, node: nat)
    requires Good(t, sh, c) && Detached(t, c, node)
    ensures t.nodesUsed > 0 && Good(FreeNode(t, node), sh, c)
  {
    assert t.nodes.Keys == (t.nodes - {node}).Keys + {node};
  }

  // ---------------------------------------------------------------- nodes with entries

  /** A node's place in the table is that of its entry. */
  lemma Placed(t: Tab, sh: Shape, c: Entries, h: Handle)
    requires Good(t, sh, c) && h in c
    ensures c[h].node in t.nodes && t.nodes[c[h].node].place == Some(h) && c[h].node != 0
    ensures forall g | g in c && g != h :: c[g].node != c[h].node
  {
    assert t.store.Occupied(h);
  }

  /** Take an entry out of the table and give its node back. */
  method Erase(t: Tab, ghost sh: Shape, ghost c: Entries, h: Handle, e: Entry)
    returns (t': Tab, ghost sh': Shape)
    requires Good(t, sh, c) && h in c && e == c[h]
    ensures Good(t', sh', c - {h})
    ensures t'.nodes == t.nodes - {e.node} && t'.nodeCount == t.nodeCount && e.node != 0
    ensures t'.store.rows == t.store.rows
  {
    hide Good;
    Placed(t, sh, c, h);
    ghost var c';
    t', sh', c' := RemoveNode(t, sh, c, e.node, e.hash);
    FreeNodeGood(t', sh', c', e.node);
    t' := FreeNode(t', e.node);
  }

  /** What installing a node does to the entries and the pool; a node that was not
      inserted is given back. */
  ghost predicate Installed(c: Entries, nodes: set<nat>, e: Entry, c': Entries, nodes': set<nat>, r: InsertResult) {
    Inserts(c, e, c', r) && nodes' == if r.Inserted? then nodes + {e.node} else nodes
  }

  lemma FreshIsDetached(t: Tab, sh: Shape, c: Entries, n: nat)
    requires Good(t, sh, c) && n !in t.nodes && n != 0
    ensures forall h | h in c :: c[h].node != n
  {
  }

  /** A node from the pool is given a name and put in the table, or given back. */
  method Install(t: Tab, ghost sh: Shape, ghost c: Entries, name: nat, hash: nat, dpo: nat, vft: nat)
    returns (t': Tab, n: nat, r: InsertResult, ghost sh': Shape, ghost c': Entries)
    requires Good(t, sh, c) && hash != 0
    ensures Good(t', sh', c') && t'.nodeCount == t.nodeCount && t'.store.rows == t.store.rows
    ensures n != 0 ==> Follows(Scan(t.store, sh, t.Start(hash), hash), NoBucket(t), r)
    ensures n == 0 <==> t.nodesUsed >= t.nodeCount
    ensures n == 0 ==> t' == t && c' == c
    ensures n != 0 ==> n !in t.nodes && Installed(c, t.nodes.Keys, NewEntry(n, hash, dpo, vft), c', t'.nodes.Keys, r)
    ensures n != 0 && r.Inserted? ==> t'.nodes == t.nodes[n := Node(name, Some(r.h))]
  {
    hide Good, Matches;
    t', n := AllocNode(t, sh, c);
    sh', c', r := sh, c, NoMem;
    if n == 0 {
      return;
    }
    FreshIsDetached(t, sh, c, n);
    InitNodeGood(t', sh, c, n, name);
    t' := InitNode(t', n, name);
    t', r, sh', c' := Insert(t', sh, c, n, hash, dpo, vft);
    if !r.Inserted? {
      StillDetached(c, c', n, r);
      FreeNodeGood(t', sh', c', n);
      t' := FreeNode(t', n);
    }
  }

  lemma StillDetached(c: Entries, c': Entries, n: nat, r: InsertResult)
    requires forall h | h in c :: c[h].node != n
    requires c' == c || (r.Exist? && r.h in c && c' == c[r.h := c[r.h].(locks := c[r.h].locks + 1)])
    ensures forall h | h in c' :: c'[h].node != n
  {
  }

  // --------------------------------------------------------------------- allocation

  function Ceil(a: nat, b: nat): nat
    requires b > 0
  {
    (a + b - 1) / b
  }

  function Align8(a: nat): nat {
    Ceil(a, 8) * 8
  }

  /** How many rows and overflow buckets a table for so many nodes gets; the numbers are
      32 bits wide. */
  function RowsFor(nodes: nat): nat {
    Align8(Ceil(Ceil(nodes, BUCKET_ENTRIES - 1), 4))
  }

  function OverflowFor(nodes: nat): nat {
    Align8((Ceil(nodes, BUCKET_ENTRIES - 1) - RowsFor(nodes)) % 0x1_0000_0000) % 0x1_0000_0000
  }

  lemma CeilIs(a: nat, b: nat)
    requires b > 0
    ensures b * Ceil(a, b) - b < a <= b * Ceil(a, b)
  {
  }

  lemma RowsAre(nodes: nat)
    ensures var total := Ceil(nodes, BUCKET_ENTRIES - 1);
      RowsFor(nodes) % 8 == 0 && 4 * RowsFor(nodes) - 31 <= total <= 4 * RowsFor(nodes)
  {
    hide Ceil;
    var total := Ceil(nodes, BUCKET_ENTRIES - 1);
    CeilIs(total, 4);
    CeilIs(Ceil(total, 4), 8);
  }

  /** A table for at most 28 nodes has more rows than it needs buckets: the subtraction
      wraps around, the rounding wraps around again, and there are no overflow buckets.
      A larger one has as many buckets, the hidden one included, as hold its nodes. */
  lemma SizingWrapsIff(nodes: nat)
    requires 16 <= nodes <= 0x100_0000
    ensures Ceil(nodes, BUCKET_ENTRIES - 1) < RowsFor(nodes) <==> nodes <= 28
    ensures nodes > 28 ==> RowsFor(nodes) + OverflowFor(nodes) == Align8(Ceil(nodes, BUCKET_ENTRIES - 1))
    ensures nodes <= 28 ==> OverflowFor(nodes) == 0
  {
    hide Ceil;
    var total: int, rows: int := Ceil(nodes, BUCKET_ENTRIES - 1), RowsFor(nodes);
    CeilIs(nodes, 4);
    RowsAre(nodes);
    var less: int := total - rows;
    var diff := less % 0x1_0000_0000;
    CeilIs(diff, 8);
    CeilIs(total, 8);
    if nodes <= 28 {
      assert rows == 8 && diff == 0x1_0000_0000 + total - 8;
      assert Align8(diff) == 0x1_0000_0000;
    } else {
      assert diff == total - rows;
      AlignShifts(diff, rows);
    }
  }

  lemma AlignShifts(a: nat, b: nat)
    requires b % 8 == 0
    ensures Align8(a + b) == Align8(a) + b
  {
    hide Ceil;
    CeilIs(a, 8);
    CeilIs(a + b, 8);
  }

  /** The buckets that can be had; overflow bucket 0 is hidden. */
  function UsableFor(nodes: nat): nat {
    RowsFor(nodes) + if OverflowFor(nodes) > 0 then OverflowFor(nodes) - 1 else 0
  }

  /** Nodes in groups of 32, and the buckets they take. */
  lemma BucketsFor(nodes: nat, groups: nat, rest: nat)
    requires nodes == 32 * groups + rest && 1 <= rest <= 32
    ensures Align8(Ceil(nodes, BUCKET_ENTRIES - 1)) == 8 * groups + 8
    ensures Ceil(nodes - 1, BUCKET_ENTRIES - 1) <= 8 * groups + 7 <==> rest <= 29
    ensures Ceil(nodes - 1, BUCKET_ENTRIES - 1) <= 8 * groups + 8
  {
    hide Ceil;
    var total := Ceil(nodes, 4);
    CeilIs(nodes, 4);
    CeilIs(nodes - 1, 4);
    CeilIs(total, 8);
    assert 8 * groups < total <= 8 * groups + 8;
  }

  /** They hold all nodes but the hidden one, four to a bucket, if and only if the number
      of nodes is at most 32 or its remainder by 32 is 1 to 29; otherwise one bucket is
      missing. */
  lemma SizingSufficesIff(nodes: nat)
    requires 16 <= nodes <= 0x100_0000
    ensures UsableFor(nodes) >= Ceil(nodes - 1, BUCKET_ENTRIES - 1) <==> nodes <= 32 || 1 <= nodes % 32 <= 29
    ensures UsableFor(nodes) + 1 >= Ceil(nodes - 1, BUCKET_ENTRIES - 1)
  {
    hide Ceil, Align8, RowsFor, OverflowFor;
    var groups := (nodes - 1) / 32;
    BucketsFor(nodes, groups, nodes - 32 * groups);
    SizingWrapsIff(nodes);
    FewRows(nodes);
  }

  /** The rows alone hold up to 32 nodes. */
  lemma FewRows(nodes: nat)
    requires 16 <= nodes
    ensures if nodes <= 32 then RowsFor(nodes) == 8 else RowsFor(nodes) < Align8(Ceil(nodes, BUCKET_ENTRIES - 1))
  {
    hide Ceil, RowsFor;
    RowsAre(nodes);
    CeilIs(nodes, 4);
    CeilIs(Ceil(nodes, 4), 8);
  }

  /** The rows of a new table. */
  method ZeroedRows(rows: nat) returns (cells: map<Ref, Bucket>)
    ensures |cells| == rows
    ensures forall r :: r in cells <==> r.Row? && r.id < rows
    ensures forall r | r in cells :: cells[r] == ZEROED
  {
    cells := map[];
    var i := 0;
    while i < rows
      invariant 0 <= i <= rows && |cells| == i
      invariant forall r :: r in cells <==> r.Row? && r.id < i
      invariant forall r | r in cells :: cells[r] == ZEROED
    {
      cells := cells[Row(i) := ZEROED];
      i := i + 1;
    }
  }

  method NewTable(rows: nat, overflowCount: nat, nodeCount: nat) returns (t: Tab, ghost sh: Shape)
    requires rows > 0
    ensures Good(t, sh, map[])
    ensures t.store.rows == rows && t.overflowCount == overflowCount && t.nodeCount == nodeCount
    ensures t.overflowUsed == 1 && t.nodes.Keys == {0}
  {
    var cells := ZeroedRows(rows);
    t := Tab(Store(rows, cells), overflowCount, 1, map[0 := Node(0, None)], nodeCount, 1);
    sh := Shape(map r | r in cells :: r.id, map r | r in cells :: 0, map[], 1);
    assert Framed(t.store, sh);
    assert forall r :: !t.store.Links(r);
    assert forall h :: !t.store.Occupied(h);
  }

  /** A table for some number of nodes; outside the limits there is none. */
  method AllocTable(nodes: nat) returns (t: Option<Tab>, ghost sh: Shape)
    ensures t.Some? <==> 16 <= nodes <= 0x100_0000
    ensures t.Some? ==>
      && Good(t.value, sh, map[]) && t.value.store.rows == RowsFor(nodes)
      && t.value.overflowCount == OverflowFor(nodes) && t.value.nodeCount == nodes
      && t.value.overflowUsed == 1 && t.value.nodes.Keys == {0}
  {
    hide Good;
    sh := Shape(map[], map[], map[], 0);
    if nodes < 16 || nodes > 0x100_0000 {
      return None, sh;
    }
    RowsAre(nodes);
    SizingWrapsIff(nodes);
    var table;
    table, sh := NewTable(RowsFor(nodes), OverflowFor(nodes), nodes);
    t := Some(table);
  }
}
