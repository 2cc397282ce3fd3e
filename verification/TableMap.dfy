/** The hash table as a map from hashes to entries: when at most one live entry has
    a hash, and what a lookup then finds. */
module TableMap {
  import opened Lists
  import opened Table
  import opened HashTable

  /** At most one live entry per hash. */
  ghost predicate Unique(c: Entries) {
    forall g, h | g in c && h in c && !c[g].deleted && !c[h].deleted && c[g].hash == c[h].hash :: g == h
  }

  /** No live entry has the hash: what a missed lookup tells. */
  ghost predicate Missing(c: Entries, hash: nat) {
    forall h | h in c :: !Matches(c[h], hash, false)
  }

  /** With unique live hashes a lookup is the map's: it finds `h` exactly when `h` is
      the live entry with that hash. */
  lemma FindIsMapLookup(t: Tab, sh: Shape, c: Entries, hash: nat, h: Handle)
    requires Good(t, sh, c) && Unique(c) && hash != 0
    ensures Find(t.store, sh, t.Start(hash), hash, false) == Some(h) <==> h in c && Matches(c[h], hash, false)
    ensures Find(t.store, sh, t.Start(hash), hash, false) == None <==> Missing(c, hash)
  {
    FindIsComplete(t.store, sh, hash, false);
    hide WellFormed;
    var f := Find(t.store, sh, t.Start(hash), hash, false);
    if f.Some? {
      assert f.value in c;
    }
    if h in c && Matches(c[h], hash, false) {
      assert t.store.Occupied(h);
    }
  }

  /** A new live entry keeps live hashes unique exactly when no live entry had its hash. */
  lemma InsertUnique(c: Entries, h: Handle, e: Entry)
    requires Unique(c) && h !in c && !e.deleted
    ensures Unique(c[h := e]) <==> Missing(c, e.hash)
  {
    var c' := c[h := e];
    if !Missing(c, e.hash) {
      var g :| g in c && Matches(c[g], e.hash, false);
      assert g != h && c'[g] == c[g] && c'[h] == e;
    }
  }

  /** So an insert that succeeds keeps them unique exactly when it follows a lookup that
      missed. */
  lemma InsertKeepsUnique(c: Entries, nodes: map<nat, Node>, e: Entry, c': Entries, nodes': map<nat, Node>, h: Handle)
    requires Unique(c) && e.node in nodes && !e.deleted
    requires InsertEffect(c, nodes, e, c', nodes', Inserted(h))
    ensures Unique(c') <==> Missing(c, e.hash)
  {
    InsertUnique(c, h, e);
  }

  // ---------------------------------------------------------------- the map it means

  /** Where the live entry of each hash is. */
  ghost predicate Index(c: Entries, l: map<nat, Handle>) {
    && (forall x | x in l :: l[x] in c && !c[l[x]].deleted && c[l[x]].hash == x)
    && (forall h | h in c && !c[h].deleted :: c[h].hash in l && l[c[h].hash] == h)
  }

  /** The map from hashes to nodes. */
  ghost function MapOf(c: Entries, l: map<nat, Handle>): map<nat, nat>
    requires Index(c, l)
  {
    map x | x in l :: c[l[x]].node
  }

  lemma IndexIsUnique(c: Entries, l: map<nat, Handle>)
    requires Index(c, l)
    ensures Unique(c)
  {
  }

  // --------------------------------------------------------------- what operations mean

  /** Look a hash up; put a node there if the lookup misses; remove its entry; mark its
      entry deleted. */
  datatype Op = Look(hash: nat) | Put(hash: nat, name: nat) | Remove(hash: nat) | Mark(hash: nat)

  datatype Answer = Found(node: nat) | Missed | Added(node: nat) | NoRoom

  /** There is a node, and a place for it: a hole in the row or another bucket. */
  ghost predicate HasRoom(t: Tab, sh: Shape, hash: nat)
    requires WellFormed(t.store, sh)
  {
    t.nodesUsed < t.nodeCount && (Scan(t.store, sh, t.Start(hash), hash).Extend? ==> !NoBucket(t))
  }

  /** The same on a map: a new node is put exactly if there is room. */
  ghost predicate Explains(m: map<nat, nat>, op: Op, room: bool, a: Answer, m': map<nat, nat>) {
    var x := op.hash;
    if x in m then a == Found(m[x]) && m' == if op.Remove? || op.Mark? then m - {x} else m
    else if op.Put? then if room then a.Added? && a.node !in m.Values && m' == m[x := a.node] else a == NoRoom && m' == m
    else a == Missed && m' == m
  }

  /** The table at some moment, with its shape, its entries and their index. */
  datatype Moment = Moment(t: Tab, sh: Shape, c: Entries, l: map<nat, Handle>)

  ghost predicate Fine(m: Moment) {
    Good(m.t, m.sh, m.c) && Index(m.c, m.l)
  }

  /** From one moment to the next, the operation did what it does to a map. */
  ghost predicate Explained(m: Moment, op: Op, a: Answer, m': Moment)
    requires Fine(m) && Fine(m')
  {
    Explains(MapOf(m.c, m.l), op, HasRoom(m.t, m.sh, op.hash), a, MapOf(m'.c, m'.l))
  }

  /** So it is all along. */
  ghost predicate AllExplained(trace: seq<Moment>, ops: seq<Op>, answers: seq<Answer>) {
    && |answers| == |ops| && |trace| == |ops| + 1
    && (forall i | 0 <= i < |trace| :: Fine(trace[i]))
    && (forall i | 0 <= i < |ops| :: Explained(trace[i], ops[i], answers[i], trace[i + 1]))
  }

  lemma OneMore(trace: seq<Moment>, ops: seq<Op>, answers: seq<Answer>, op: Op, a: Answer, m: Moment)
    requires AllExplained(trace, ops, answers) && Fine(m) && Explained(trace[|ops|], op, a, m)
    ensures AllExplained(trace + [m], ops + [op], answers + [a])
  {
    hide Fine, Explained;
    var trace', ops', answers' := trace + [m], ops + [op], answers + [a];
    assert forall i | 0 <= i < |trace'| :: Fine(trace'[i]);
    forall i | 0 <= i < |ops'|
      ensures Explained(trace'[i], ops'[i], answers'[i], trace'[i + 1])
    {
      assert trace'[i] == trace[i];
      if i < |ops| {
        assert trace'[i + 1] == trace[i + 1] && ops'[i] == ops[i] && answers'[i] == answers[i];
      }
    }
  }

  // -------------------------------------------------------------- entries and the map

  lemma IndexFound(c: Entries, l: map<nat, Handle>, hash: nat, h: Handle)
    requires Index(c, l) && h in c && Matches(c[h], hash, false)
    ensures hash in l && l[hash] == h && hash in MapOf(c, l) && MapOf(c, l)[hash] == c[h].node
  {
  }

  lemma IndexMissed(c: Entries, l: map<nat, Handle>, hash: nat)
    requires Index(c, l) && Missing(c, hash)
    ensures hash !in l && hash !in MapOf(c, l)
  {
  }

  /** Changing locks changes nothing. */
  lemma IndexSame(c: Entries, l: map<nat, Handle>, h: Handle, e: Entry)
    requires Index(c, l) && h in c && e.hash == c[h].hash && e.node == c[h].node && e.deleted == c[h].deleted
    ensures Index(c[h := e], l) && MapOf(c[h := e], l) == MapOf(c, l)
  {
  }

  lemma IndexGone(c: Entries, l: map<nat, Handle>, hash: nat)
    requires Index(c, l) && hash in l
    ensures Index(c - {l[hash]}, l - {hash}) && MapOf(c - {l[hash]}, l - {hash}) == MapOf(c, l) - {hash}
    ensures var h := l[hash]; var c' := c[h := c[h].(deleted := true)];
      Index(c', l - {hash}) && MapOf(c', l - {hash}) == MapOf(c, l) - {hash}
  {
  }

  lemma IndexNew(c: Entries, l: map<nat, Handle>, h: Handle, e: Entry)
    requires Index(c, l) && h !in c && !e.deleted && Missing(c, e.hash)
    ensures Index(c[h := e], l[e.hash := h]) && MapOf(c[h := e], l[e.hash := h]) == MapOf(c, l)[e.hash := e.node]
  {
    var c', l' := c[h := e], l[e.hash := h];
    forall x | x in l'
      ensures l'[x] in c' && !c'[l'[x]].deleted && c'[l'[x]].hash == x
    {
    }
    forall g | g in c' && !c'[g].deleted
      ensures c'[g].hash in l' && l'[c'[g].hash] == g
    {
      if g != h {
        assert !Matches(c[g], e.hash, false);
      }
    }
    MapNew(c, l, h, e);
  }

  lemma MapNew(c: Entries, l: map<nat, Handle>, h: Handle, e: Entry)
    requires Index(c, l) && Index(c[h := e], l[e.hash := h]) && h !in c
    ensures MapOf(c[h := e], l[e.hash := h]) == MapOf(c, l)[e.hash := e.node]
  {
  }

  /** A node that is not in use has no entry. */
  lemma NodeIsNew(t: Tab, sh: Shape, c: Entries, l: map<nat, Handle>, n: nat)
    requires Good(t, sh, c) && Index(c, l) && n !in t.nodes
    ensures n !in MapOf(c, l).Values
  {
  }

  // ------------------------------------------------------------- the table's operations

  /** A lookup and then an insert, as the forwarder does for a new interest. */
  method PutIfMissing(t: Tab, ghost sh: Shape, ghost c: Entries, ghost l: map<nat, Handle>, hash: nat, name: nat)
    returns (t': Tab, a: Answer, ghost sh': Shape, ghost c': Entries, ghost l': map<nat, Handle>)
    requires Good(t, sh, c) && Index(c, l) && hash != 0
    ensures Good(t', sh', c') && Index(c', l')
    ensures Explains(MapOf(c, l), Put(hash, name), HasRoom(t, sh, hash), a, MapOf(c', l'))
  {
    hide Good, Index, MapOf, Matches;
    GoodIsFormed(t, sh, c);
    var found;
    t', found, c' := Lookup(t, sh, c, hash, false, false);
    sh', l' := sh, l;
    if found.Some? {
      IndexFound(c, l, hash, found.value);
      LookedSame(c, l, found.value);
      var e := ReadEntry(t', sh', c', found.value);
      a := Found(e.node);
      return;
    }
    IndexMissed(c, l, hash);
    var n, r;
    t', n, r, sh', c' := Install(t', sh, c, name, hash, 0, 0);
    if n == 0 || !r.Inserted? {
      a := NoRoom;
      if n != 0 {
        NotExist(c, NewEntry(n, hash, 0, 0), c', r);
      }
      return;
    }
    NodeIsNew(t, sh, c, l, n);
    IndexNew(c, l, r.h, NewEntry(n, hash, 0, 0));
    l' := l[hash := r.h];
    a := Added(n);
  }

  lemma LookedSame(c: Entries, l: map<nat, Handle>, h: Handle)
    requires Index(c, l) && h in c
    ensures Looked(c, h, false)[h].node == c[h].node && Index(Looked(c, h, false), l) && MapOf(Looked(c, h, false), l) == MapOf(c, l)
  {
    hide Index, MapOf;
    IndexSame(c, l, h, c[h].(locks := c[h].locks + 1));
  }

  /** After a missed lookup nothing is in the way. */
  lemma NotExist(c: Entries, e: Entry, c': Entries, r: InsertResult)
    requires Inserts(c, e, c', r) && !r.Inserted? && Missing(c, e.hash)
    ensures c' == c
  {
  }

  /** A lookup and then the removal of what it found, or its mark. */
  method TakeAway(t: Tab, ghost sh: Shape, ghost c: Entries, ghost l: map<nat, Handle>, hash: nat, mark: bool)
    returns (t': Tab, a: Answer, ghost sh': Shape, ghost c': Entries, ghost l': map<nat, Handle>)
    requires Good(t, sh, c) && Index(c, l) && hash != 0
    ensures Good(t', sh', c') && Index(c', l')
    ensures Explains(MapOf(c, l), if mark then Mark(hash) else Remove(hash), HasRoom(t, sh, hash), a, MapOf(c', l'))
  {
    hide Good, Index, MapOf, Matches;
    var found;
    t', found, c' := Lookup(t, sh, c, hash, false, false);
    sh', l', a := sh, l, Missed;
    if found.None? {
      IndexMissed(c, l, hash);
      return;
    }
    var h := found.value;
    IndexFound(c, l, hash, h);
    LookedSame(c, l, h);
    var e := ReadEntry(t', sh', c', h);
    a := Found(e.node);
    IndexGone(c', l, hash);
    l' := l - {hash};
    if mark {
      WithEntryGood(t', sh', c', h, e.(deleted := true));
      t', c' := WithEntry(t', h, e.(deleted := true)), c'[h := e.(deleted := true)];
    } else {
      t', sh' := Erase(t', sh', c', h, e);
      c' := c' - {h};
    }
  }

  method DoOp(t: Tab, ghost sh: Shape, ghost c: Entries, ghost l: map<nat, Handle>, op: Op)
    returns (t': Tab, a: Answer, ghost sh': Shape, ghost c': Entries, ghost l': map<nat, Handle>)
    requires Good(t, sh, c) && Index(c, l) && op.hash != 0
    ensures Good(t', sh', c') && Index(c', l')
    ensures Explains(MapOf(c, l), op, HasRoom(t, sh, op.hash), a, MapOf(c', l'))
  {
    hide Good, Index, MapOf, Matches;
    match op
    case Put(hash, name) => t', a, sh', c', l' := PutIfMissing(t, sh, c, l, hash, name);
    case Remove(hash) => t', a, sh', c', l' := TakeAway(t, sh, c, l, hash, false);
    case Mark(hash) => t', a, sh', c', l' := TakeAway(t, sh, c, l, hash, true);
    case Look(hash) =>
      var found;
      t', found, c' := Lookup(t, sh, c, hash, false, false);
      sh', l', a := sh, l, Missed;
      if found.Some? {
        IndexFound(c, l, hash, found.value);
        LookedSame(c, l, found.value);
        var e := ReadEntry(t', sh', c', found.value);
        a := Found(e.node);
      } else {
        IndexMissed(c, l, hash);
      }
  }

  /** Over any run of lookups, inserts after missed lookups, removals and marks, the
      table answers like a map from hashes to nodes, refuses a node exactly if there is no
      room for it, is good, and has at most one live entry per hash. */
  method RunOps(t: Tab, ghost sh: Shape, ghost c: Entries, ghost l: map<nat, Handle>, ops: seq<Op>)
    returns (t': Tab, answers: seq<Answer>, ghost trace: seq<Moment>)
    requires Good(t, sh, c) && Index(c, l) && forall op | op in ops :: op.hash != 0
    ensures AllExplained(trace, ops, answers)
    ensures |trace| == |ops| + 1 && trace[0] == Moment(t, sh, c, l) && trace[|ops|].t == t' && Unique(trace[|ops|].c)
  {
    hide Good, Index, Explained, Unique, AllExplained, Explains, HasRoom, MapOf, WellFormed;
    ghost var now := Moment(t, sh, c, l);
    t', answers, trace := t, [], [now];
    Unmoved(now);
    assert ops[..0] == [];
    for i := 0 to |ops|
      invariant AllExplained(trace, ops[..i], answers) && |trace| == i + 1 && trace[i] == now && trace[0] == Moment(t, sh, c, l)
      invariant now.t == t' && Fine(now)
    {
      GoodIsFormed(now.t, now.sh, now.c);
      assert ops[i] in ops;
      var a;
      ghost var sh', c', l';
      t', a, sh', c', l' := DoOp(t', now.sh, now.c, now.l, ops[i]);
      ghost var then' := Moment(t', sh', c', l');
      IsExplained(now, ops[i], a, then');
      OneMore(trace, ops[..i], answers, ops[i], a, then');
      assert ops[..i + 1] == ops[..i] + [ops[i]];
      answers, trace, now := answers + [a], trace + [then'], then';
    }
    assert ops[..|ops|] == ops;
    IndexIsUnique(now.c, now.l);
  }

  lemma Unmoved(m: Moment)
    requires Fine(m)
    ensures AllExplained([m], [], [])
  {
    hide Good, Index;
  }

  lemma IsExplained(m: Moment, op: Op, a: Answer, m': Moment)
    requires Fine(m) && Fine(m') && WellFormed(m.t.store, m.sh)
    requires Explains(MapOf(m.c, m.l), op, HasRoom(m.t, m.sh, op.hash), a, MapOf(m'.c, m'.l))
    ensures Explained(m, op, a, m')
  {
    hide Good, Index, Explains, HasRoom, MapOf, WellFormed;
  }

  lemma GoodIsFormed(t: Tab, sh: Shape, c: Entries)
    requires Good(t, sh, c)
    ensures WellFormed(t.store, sh)
  {
  }

  /** From a new table on. */
  method RunFromNew(rows: nat, overflowCount: nat, nodeCount: nat, ops: seq<Op>)
    returns (t: Tab, answers: seq<Answer>, ghost trace: seq<Moment>)
    requires rows > 0 && forall op | op in ops :: op.hash != 0
    ensures AllExplained(trace, ops, answers)
    ensures |trace| == |ops| + 1 && trace[0].c == map[] && trace[|ops|].t == t && Unique(trace[|ops|].c)
  {
    hide Good, AllExplained, Unique;
    var t0, sh := NewTable(rows, overflowCount, nodeCount);
    NoEntries();
    t, answers, trace := RunOps(t0, sh, map[], map[], ops);
  }

  lemma NoEntries()
    ensures Index(map[], map[]) && MapOf(map[], map[]) == map[]
  {
  }

  // ------------------------------------------------- without the lookup: a duplicate

  /** The first two slots of the row of a hash. */
  function First(row: nat): Handle {
    Handle(Row(row), 0)
  }

  function Second(row: nat): Handle {
    Handle(Row(row), 1)
  }

  /** The first unused slot of the row is taken. */
  lemma FirstSlotFree(t: Tab, sh: Shape, c: Entries, hash: nat)
    requires Good(t, sh, c) && hash != 0 && First(RowIndex(hash, t.store.rows)) !in c
    ensures Scan(t.store, sh, t.Start(hash), hash) == Free(First(RowIndex(hash, t.store.rows)))
  {
    hide RowIndex;
    var r := t.Start(hash);
    assert r in t.store.cells;
    assert !t.store.Occupied(Handle(r, 0));
    assert t.store.cells[r][0] == EMPTY;
  }

  lemma SecondSlotFree(t: Tab, sh: Shape, c: Entries, hash: nat)
    requires Good(t, sh, c) && hash != 0
    requires var row := RowIndex(hash, t.store.rows); First(row) in c && c[First(row)].hash != hash && Second(row) !in c
    ensures Scan(t.store, sh, t.Start(hash), hash) == Free(Second(RowIndex(hash, t.store.rows)))
  {
    hide RowIndex;
    var r := t.Start(hash);
    var b := t.store.cells[r];
    assert t.store.Occupied(Handle(r, 0)) && b[0].hash != 0 && b[0].hash != hash;
    assert !t.store.Occupied(Handle(r, 1));
    assert b[1] == EMPTY;
    assert ScanBucket(b, hash, 1) == Hole(1);
  }

  /** Two inserts in a row, the removal of the first, and an insert without a lookup: from
      a new table of any size the last hash gets a second live entry. */
  method InsertsTwice(rows: nat, overflowCount: nat, nodeCount: nat, a: nat, b: nat)
    returns (t: Tab, ghost sh: Shape, ghost c: Entries)
    requires rows > 0 && nodeCount >= 4 && a != 0 && b != 0 && a != b && RowIndex(a, rows) == RowIndex(b, rows)
    ensures Good(t, sh, c) && t.store.rows == rows && !Unique(c)
  {
    hide Good, Matches, RowIndex;
    t, sh := NewTable(rows, overflowCount, nodeCount);
    c := map[];
    var n, r, e;
    var first, second := First(RowIndex(a, rows)), Second(RowIndex(a, rows));
    FirstSlotFree(t, sh, c, a);
    UsedNodes(t, sh, c);
    t, n, r, sh, c := Install(t, sh, c, 10, a, 0, 0);
    UsedNodes(t, sh, c);
    SecondSlotFree(t, sh, c, b);
    t, n, r, sh, c := Install(t, sh, c, 20, b, 0, 0);
    UsedNodes(t, sh, c);
    e := ReadEntry(t, sh, c, first);
    t, sh := Erase(t, sh, c, first, e);
    c := c - {first};
    UsedNodes(t, sh, c);
    FirstSlotFree(t, sh, c, b);
    t, n, r, sh, c := Install(t, sh, c, 20, b, 0, 0);
    assert first in c && second in c && c[first].hash == c[second].hash == b && !c[first].deleted && !c[second].deleted;
  }

  lemma UsedNodes(t: Tab, sh: Shape, c: Entries)
    requires Good(t, sh, c)
    ensures t.nodesUsed == |t.nodes.Keys|
  {
    assert |t.nodes| == |t.nodes.Keys|;
  }

  // -------------------------------------------------------- hashes that share a row

  lemma {:induction false} HighBit(k: nat, m: nat)
    requires m < Pow2(k)
    ensures BitAnd(Pow2(k), m) == 0
  {
    hide BitAnd, Pow2;
    Pow2Is(k);
    if k == 0 {
      BitZero(1, m);
    } else {
      HighBit(k - 1, m / 2);
      BitStep(Pow2(k), m);
    }
  }

  /** So it happens in every table that the code allocates. */
  method InsertsTwiceInAny(nodes: nat) returns (t: Tab, ghost sh: Shape, ghost c: Entries)
    requires 16 <= nodes <= 0x100_0000
    ensures Good(t, sh, c) && t.store.rows == RowsFor(nodes) && !Unique(c)
  {
    hide Good, RowIndex, Unique, Pow2;
    RowsAre(nodes);
    var rows := RowsFor(nodes);
    var k := 0;
    var p := 1;
    Pow2Is(0);
    while p < rows
      invariant p == Pow2(k)
      decreases if p < rows then rows - p else 0
    {
      Pow2Is(k + 1);
      k, p := k + 1, 2 * p;
    }
    SameRow(k, rows);
    t, sh, c := InsertsTwice(rows, OverflowFor(nodes), nodes, p, 2 * p);
  }

  lemma SameRow(k: nat, rows: nat)
    requires 0 < rows <= Pow2(k)
    ensures RowIndex(Pow2(k), rows) == RowIndex(2 * Pow2(k), rows) == 0
  {
    hide Pow2, BitAnd;
    Pow2Is(k + 1);
    HighBit(k, rows - 1);
    HighBit(k + 1, rows - 1);
  }
}
