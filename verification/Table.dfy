/** The memory layout of the PIT/CS hash table and the chain of buckets that
    hangs off each of its rows (hicn-plugin/src/hashtb.h, hashtb.c).

    A bucket has five slots.  The first four hold entries; the last one is
    empty or links to an overflow bucket taken from a pool.  Overflow bucket 0
    and node 0 are hidden so that index 0 can mean "nothing".

    No list of buckets is stored anywhere.  What makes a chain a chain is a
    `Shape`: each overflow bucket is given the row it serves, a rank, and the
    one bucket that links to it.  A link never leaves its row and always goes
    to a higher rank.  Everything else about chains is proved from that. */
module Table {
  import opened Lists

  const BUCKET_ENTRIES := 5
  const LINK := BUCKET_ENTRIES - 1

  /** One slot of a bucket.  The flag octet is spelled out; hash 0 and node 0
      mark an unused slot. */
  datatype Entry = Entry(hash: nat, node: nat, locks: nat, dpo: nat, vft: nat,
                         isCs: bool, overflow: bool, deleted: bool)

  const EMPTY := Entry(0, 0, 0, 0, 0, false, false, false)

  function NewEntry(node: nat, hash: nat, dpo: nat, vft: nat): Entry {
    EMPTY.(hash := hash, node := node, dpo := dpo, vft := vft)
  }

  function LinkTo(id: nat): Entry {
    EMPTY.(node := id, overflow := true)
  }

  type Bucket = b: seq<Entry> | |b| == BUCKET_ENTRIES
    witness [EMPTY, EMPTY, EMPTY, EMPTY, EMPTY]

  const ZEROED: Bucket := [EMPTY, EMPTY, EMPTY, EMPTY, EMPTY]

  /** A row of the main table, or a bucket of the overflow pool. */
  datatype Ref = Row(id: nat) | Over(id: nat)

  /** What a packet remembers of an entry between graph nodes: bucket id,
      overflow flag and slot. */
  datatype Handle = Handle(bucket: Ref, slot: nat)

  /** The rows of the main table and the allocated overflow buckets.  Hidden
      overflow bucket 0 is not among them. */
  datatype Store = Store(rows: nat, cells: map<Ref, Bucket>) {
    /** An entry slot, as opposed to a link slot or a freed bucket. */
    predicate IsSlot(h: Handle) {
      h.bucket in cells && h.slot < LINK
    }

    function Slot(h: Handle): Entry
      requires IsSlot(h)
    {
      cells[h.bucket][h.slot]
    }

    predicate Occupied(h: Handle) {
      IsSlot(h) && Slot(h).node != 0
    }

    predicate Links(r: Ref) {
      r in cells && cells[r][LINK].overflow
    }

    function Next(r: Ref): Ref
      requires Links(r)
    {
      Over(cells[r][LINK].node)
    }
  }

  /** The row each bucket serves, its rank in that row's chain, and the bucket
      that links to it. */
  datatype Shape = Shape(row: map<Ref, nat>, rank: map<Ref, nat>, parent: map<Ref, Ref>, bound: nat)

  // ---------------------------------------------------------------- addressing

  /** Bitwise and on unbounded naturals. */
  function BitAnd(a: nat, b: nat): (r: nat)
    ensures r <= a && r <= b
  {
    if a == 0 || b == 0 then 0
    else (if a % 2 == 1 && b % 2 == 1 then 1 else 0) + 2 * BitAnd(a / 2, b / 2)
  }

  /** The row a hash is stored in: the hash masked with the row count less one. */
  function RowIndex(hash: nat, count: nat): (r: nat)
    requires count > 0
    ensures r < count
  {
    BitAnd(hash, count - 1)
  }

  function Pow2(k: nat): (p: nat)
    ensures p > 0
  {
    if k == 0 then 1 else 2 * Pow2(k - 1)
  }

  lemma MaskStep(hash: nat, p: nat)
    requires p > 0
    ensures hash % (2 * p) == hash % 2 + 2 * ((hash / 2) % p)
  {
    var q, r := (hash / 2) / p, (hash / 2) % p;
    assert hash / 2 == p * q + r;
    assert hash == (2 * p) * q + (2 * r + hash % 2);
    var rest := 2 * r + hash % 2;
    assert 0 <= rest < 2 * p;
    assert hash / (2 * p) == q && hash % (2 * p) == rest by {
      DivModUnique(hash, 2 * p, q, rest);
    }
  }

  lemma MulMonotone(d: nat, a: nat, b: nat)
    requires a <= b
    ensures d * a <= d * b
  {
  }

  lemma DivModUnique(x: nat, d: nat, q: nat, r: nat)
    requires d > 0 && r < d && x == d * q + r
    ensures x / d == q && x % d == r
  {
    var q', r' := x / d, x % d;
    assert x == d * q' + r';
    if q' < q {
      MulMonotone(d, q' + 1, q);
    } else if q < q' {
      MulMonotone(d, q + 1, q');
    }
  }

  lemma Pow2Is(k: nat)
    ensures Pow2(0) == 1 && (k > 0 ==> Pow2(k) == 2 * Pow2(k - 1))
  {
  }

  lemma OneRow(hash: nat)
    ensures RowIndex(hash, 1) == hash % 1
  {
    assert BitAnd(hash, 0) == 0;
  }

  /** With twice the rows, one more bit counts. */
  lemma TwiceTheRows(hash: nat, p: nat)
    requires p > 0 && RowIndex(hash / 2, p) == (hash / 2) % p
    ensures RowIndex(hash, 2 * p) == hash % (2 * p)
  {
    hide BitAnd;
    MaskStep(hash, p);
    MaskOdd(hash, p);
  }

  /** With a power-of-two row count masking spreads hashes like a remainder. */
  lemma {:induction false} RowIndexIsRemainder(hash: nat, k: nat)
    ensures RowIndex(hash, Pow2(k)) == hash % Pow2(k)
  {
    hide BitAnd, Pow2, RowIndex;
    Pow2Is(k);
    if k == 0 {
      OneRow(hash);
    } else {
      RowIndexIsRemainder(hash / 2, k - 1);
      TwiceTheRows(hash, Pow2(k - 1));
    }
  }

  lemma BitZero(a: nat, m: nat)
    requires a == 0 || m == 0
    ensures BitAnd(a, m) == 0
  {
  }

  lemma BitDef(a: nat, m: nat)
    requires a > 0 && m > 0
    ensures BitAnd(a, m) == (if a % 2 == 1 && m % 2 == 1 then 1 else 0) + 2 * BitAnd(a / 2, m / 2)
  {
  }

  lemma Halves(x: nat, low: nat, high: nat)
    requires x == low + 2 * high && low < 2
    ensures x % 2 == low && x / 2 == high
  {
  }

  /** The lowest bit and the others. */
  lemma BitStep(a: nat, m: nat)
    ensures BitAnd(a, m) % 2 == (if a % 2 == 1 && m % 2 == 1 then 1 else 0)
    ensures BitAnd(a, m) / 2 == BitAnd(a / 2, m / 2)
  {
    hide BitAnd;
    if a == 0 || m == 0 {
      BitZero(a, m);
      BitZero(a / 2, m / 2);
    } else {
      BitDef(a, m);
      Halves(BitAnd(a, m), if a % 2 == 1 && m % 2 == 1 then 1 else 0, BitAnd(a / 2, m / 2));
    }
  }

  lemma MaskOdd(hash: nat, p: nat)
    requires p > 0
    ensures BitAnd(hash, 2 * p - 1) == hash % 2 + 2 * BitAnd(hash / 2, p - 1)
  {
    hide BitAnd;
    var m := 2 * p - 1;
    assert m / 2 == p - 1 && m % 2 == 1;
    BitStep(hash, m);
  }

  lemma {:induction false} MaskTwice(a: nat, m: nat)
    ensures BitAnd(BitAnd(a, m), m) == BitAnd(a, m)
    decreases a
  {
    hide BitAnd;
    if a == 0 {
      BitZero(a, m);
    } else {
      MaskTwice(a / 2, m / 2);
      BitStep(a, m);
      BitStep(BitAnd(a, m), m);
    }
  }

  /** A mask that keeps every number up to itself has all its bits set. */
  lemma {:induction false} FullMask(m: nat) returns (k: nat)
    requires forall r: nat | r <= m :: BitAnd(r, m) == r
    ensures m + 1 == Pow2(k)
  {
    hide BitAnd;
    if m == 0 {
      k := 0;
    } else {
      assert BitAnd(1, m) == 1;
      BitStep(1, m);
      var q := m / 2;
      forall r: nat | r <= q
        ensures BitAnd(r, q) == r
      {
        assert BitAnd(2 * r, m) == 2 * r;
        BitStep(2 * r, m);
      }
      k := FullMask(q);
      k := k + 1;
    }
  }

  /** Some hash is stored in this row. */
  ghost predicate Used(r: nat, count: nat)
    requires count > 0
  {
    exists hash: nat :: RowIndex(hash, count) == r
  }

  ghost predicate IsPow2(n: nat) {
    exists k: nat :: n == Pow2(k)
  }

  lemma UsedIsKept(r: nat, count: nat)
    requires count > 0 && Used(r, count)
    ensures BitAnd(r, count - 1) == r
  {
    var hash: nat :| RowIndex(hash, count) == r;
    MaskTwice(hash, count - 1);
  }

  lemma Pow2Uses(r: nat, k: nat)
    requires r < Pow2(k)
    ensures Used(r, Pow2(k))
  {
    hide Pow2, BitAnd;
    RowIndexIsRemainder(r, k);
    SmallRemainder(r, Pow2(k));
    assert RowIndex(r, Pow2(k)) == r;
  }

  lemma SmallRemainder(r: nat, p: nat)
    requires r < p
    ensures r % p == r
  {
  }

  /** Every row is used by some hash if and only if the row count is a power of two. */
  lemma EveryRowUsedIff(count: nat)
    requires count > 0
    ensures (forall r: nat | r < count :: Used(r, count)) <==> IsPow2(count)
  {
    hide BitAnd, Pow2, Used;
    if IsPow2(count) {
      var k: nat :| count == Pow2(k);
      forall r: nat | r < count
        ensures Used(r, count)
      {
        Pow2Uses(r, k);
      }
    }
    if forall r: nat | r < count :: Used(r, count) {
      var m := count - 1;
      forall r: nat | r <= m
        ensures BitAnd(r, m) == r
      {
        UsedIsKept(r, count);
      }
      var k := FullMask(m);
    }
  }

  // -------------------------------------------------------------- well-formedness

  /** Each slot is unused or holds a node; the last slot is unused or a link. */
  predicate CleanBucket(b: Bucket) {
    && (forall i | 0 <= i < LINK :: b[i] == EMPTY || (b[i].node != 0 && b[i].hash != 0 && !b[i].overflow))
    && (b[LINK] == EMPTY || (b[LINK] == LinkTo(b[LINK].node) && b[LINK].node != 0))
  }

  predicate HoldsNode(b: Bucket) {
    b[0].node != 0 || b[1].node != 0 || b[2].node != 0 || b[3].node != 0
  }

  /** Rows have rank 0; the hidden overflow bucket is never in use. */
  ghost predicate Framed(s: Store, sh: Shape) {
    && sh.row.Keys == s.cells.Keys
    && sh.rank.Keys == s.cells.Keys
    && Over(0) !in s.cells
    && (forall r | r in s.cells :: r in sh.rank && r in sh.row && sh.rank[r] < sh.bound && sh.row[r] < s.rows)
    && (forall i: nat | i < s.rows :: Row(i) in s.cells)
    && (forall r | r in s.cells && r.Row? :: r in sh.rank && r in sh.row && sh.rank[r] == 0 && sh.row[r] == r.id)
  }

  /** A link goes to a bucket of the same row with a higher rank, and no other
      bucket links there. */
  ghost predicate LinksAscend(s: Store, sh: Shape)
    requires Framed(s, sh)
  {
    forall r {:trigger s.Links(r)} {:trigger s.Next(r)} | s.Links(r) ::
      var n := s.Next(r);
      n in s.cells && sh.row[n] == sh.row[r] && sh.rank[r] < sh.rank[n] && n in sh.parent && sh.parent[n] == r
  }

  /** Every overflow bucket is linked to. */
  ghost predicate ParentsLink(s: Store, sh: Shape) {
    && (forall r | r in s.cells && r.Over? :: r in sh.parent)
    && (forall r {:trigger sh.parent[r]} | r in s.cells && r.Over? ::
          r in sh.parent && s.Links(sh.parent[r]) && s.Next(sh.parent[r]) == r)
  }

  /** The links of the store are those of the shape. */
  ghost predicate Linked(s: Store, sh: Shape) {
    Framed(s, sh) && LinksAscend(s, sh) && ParentsLink(s, sh)
  }

  /** Every bucket is clean and every overflow bucket in use holds a node. */
  ghost predicate Clean(s: Store) {
    forall r | r in s.cells :: CleanBucket(s.cells[r]) && (r.Over? ==> HoldsNode(s.cells[r]))
  }

  /** Entries sit in a bucket that serves their row. */
  ghost predicate AtHome(s: Store, sh: Shape)
    requires s.rows > 0 && Framed(s, sh)
  {
    forall h | s.Occupied(h) :: RowIndex(s.Slot(h).hash, s.rows) == sh.row[h.bucket]
  }

  ghost predicate WellFormed(s: Store, sh: Shape) {
    s.rows > 0 && Linked(s, sh) && Clean(s) && AtHome(s, sh)
  }

  // ------------------------------------------------------------------------ chains

  /** The buckets met from `r` by following links. */
  ghost function ChainFrom(s: Store, sh: Shape, r: Ref): seq<Ref>
    requires Linked(s, sh) && r in s.cells
    decreases sh.bound - sh.rank[r]
  {
    if s.Links(r) then [r] + ChainFrom(s, sh, s.Next(r)) else [r]
  }

  /** Two buckets of one row are the same, or the lower-ranked one links towards
      the other. */
  lemma {:induction false} RowIsOrdered(s: Store, sh: Shape, a: Ref, b: Ref)
    requires Linked(s, sh) && a in s.cells && b in s.cells
    requires sh.row[a] == sh.row[b] && sh.rank[a] <= sh.rank[b]
    ensures a == b || (s.Links(a) && s.Next(a) in s.cells && sh.rank[s.Next(a)] <= sh.rank[b])
    ensures a != b && sh.rank[s.Next(a)] == sh.rank[b] ==> s.Next(a) == b
    decreases sh.rank[a] + sh.rank[b]
  {
    if b.Over? {
      var p := sh.parent[b];
      assert s.Links(p) && s.Next(p) == b;
      if sh.rank[a] <= sh.rank[p] {
        RowIsOrdered(s, sh, a, p);
      } else {
        RowIsOrdered(s, sh, p, a);
      }
    }
  }

  /** A chain holds exactly the buckets of its row from its first rank on, in
      strictly increasing rank. */
  lemma {:induction false} ChainIsRow(s: Store, sh: Shape, r: Ref)
    requires Linked(s, sh) && r in s.cells
    ensures forall b :: b in ChainFrom(s, sh, r) <==>
              b in s.cells && sh.row[b] == sh.row[r] && sh.rank[r] <= sh.rank[b]
    ensures forall i, j :: 0 <= i < j < |ChainFrom(s, sh, r)| ==>
              && ChainFrom(s, sh, r)[i] in s.cells && ChainFrom(s, sh, r)[j] in s.cells
              && sh.rank[ChainFrom(s, sh, r)[i]] < sh.rank[ChainFrom(s, sh, r)[j]]
    decreases sh.bound - sh.rank[r]
  {
    hide ParentsLink;
    var c := ChainFrom(s, sh, r);
    if s.Links(r) {
      var n := s.Next(r);
      var d := ChainFrom(s, sh, n);
      ChainIsRow(s, sh, n);
      assert c == [r] + d;
      assert forall i :: 0 <= i < |d| ==> d[i] in d;
    }
    forall b | b in s.cells && sh.row[b] == sh.row[r] && sh.rank[r] <= sh.rank[b]
      ensures b in c
    {
      RowIsOrdered(s, sh, r, b);
    }
  }

  /** Chains are acyclic and disjoint, and together they hold every overflow
      bucket in use: each is in the chain of one row and of no other. */
  lemma ChainsPartitionBuckets(s: Store, sh: Shape)
    requires Linked(s, sh)
    ensures forall q: nat | q < s.rows ::
              forall i, j :: 0 <= i < j < |ChainFrom(s, sh, Row(q))| ==>
                ChainFrom(s, sh, Row(q))[i] != ChainFrom(s, sh, Row(q))[j]
    ensures forall r | r in s.cells && r.Over? ::
              && sh.row[r] < s.rows
              && forall q: nat | q < s.rows :: r in ChainFrom(s, sh, Row(q)) <==> q == sh.row[r]
  {
    forall q: nat | q < s.rows
      ensures forall i, j :: 0 <= i < j < |ChainFrom(s, sh, Row(q))| ==>
                ChainFrom(s, sh, Row(q))[i] != ChainFrom(s, sh, Row(q))[j]
      ensures forall r | r in s.cells && r.Over? :: r in ChainFrom(s, sh, Row(q)) <==> q == sh.row[r]
    {
      ChainIsRow(s, sh, Row(q));
    }
  }

  // ------------------------------------------------------------------- searching

  /** What the insert scan meets first in a bucket, from slot `i` on: a live
      entry with the hash, a hole, or nothing. */
  datatype Outcome = Hit(slot: nat) | Hole(slot: nat) | Full

  function ScanBucket(b: Bucket, hash: nat, i: nat): Outcome
    requires i <= BUCKET_ENTRIES
    decreases BUCKET_ENTRIES - i
  {
    if i == BUCKET_ENTRIES then Full
    else if b[i].deleted then ScanBucket(b, hash, i + 1)
    else if b[i].hash == hash then Hit(i)
    else if b[i].hash == 0 && b[i].node == 0 && i != LINK then Hole(i)
    else ScanBucket(b, hash, i + 1)
  }

  /** The first slot the lookup accepts in a bucket, from slot `i` on. */
  function FindInBucket(b: Bucket, hash: nat, withDeleted: bool, i: nat): Option<nat>
    requires i <= BUCKET_ENTRIES
    decreases BUCKET_ENTRIES - i
  {
    if i == BUCKET_ENTRIES then None
    else if b[i].deleted && !withDeleted then FindInBucket(b, hash, withDeleted, i + 1)
    else if b[i].hash == hash then Some(i)
    else FindInBucket(b, hash, withDeleted, i + 1)
  }

  /** Where an insert ends up: at an entry that is already there, in the first
      hole, or at the end of a chain that has no hole. */
  datatype Place = Exists(h: Handle) | Free(h: Handle) | Extend(last: Ref)

  ghost function Scan(s: Store, sh: Shape, r: Ref, hash: nat): Place
    requires Linked(s, sh) && r in s.cells
    decreases sh.bound - sh.rank[r]
  {
    match ScanBucket(s.cells[r], hash, 0)
    case Hit(i) => Exists(Handle(r, i))
    case Hole(i) => Free(Handle(r, i))
    case Full => if s.Links(r) then Scan(s, sh, s.Next(r), hash) else Extend(r)
  }

  ghost function Find(s: Store, sh: Shape, r: Ref, hash: nat, withDeleted: bool): Option<Handle>
    requires Linked(s, sh) && r in s.cells
    decreases sh.bound - sh.rank[r]
  {
    match FindInBucket(s.cells[r], hash, withDeleted, 0)
    case Some(i) => Some(Handle(r, i))
    case None => if s.Links(r) then Find(s, sh, s.Next(r), hash, withDeleted) else None
  }

  /** An entry the lookup accepts. */
  predicate Matches(e: Entry, hash: nat, withDeleted: bool) {
    e.hash == hash && (withDeleted || !e.deleted)
  }

  lemma {:induction false} FindInBucketFirst(b: Bucket, hash: nat, withDeleted: bool, i: nat)
    requires CleanBucket(b) && hash != 0 && i <= BUCKET_ENTRIES
    ensures var f := FindInBucket(b, hash, withDeleted, i);
      && (f.None? ==> forall k | i <= k < LINK :: !Matches(b[k], hash, withDeleted))
      && (f.Some? ==> i <= f.value < LINK && Matches(b[f.value], hash, withDeleted))
    decreases BUCKET_ENTRIES - i
  {
    if i < BUCKET_ENTRIES {
      FindInBucketFirst(b, hash, withDeleted, i + 1);
    }
  }

  lemma {:induction false} ScanBucketFirst(b: Bucket, hash: nat, i: nat)
    requires CleanBucket(b) && hash != 0 && i <= BUCKET_ENTRIES
    ensures var o := ScanBucket(b, hash, i);
      && (o.Full? ==> forall k | i <= k < LINK :: b[k].node != 0 && !Matches(b[k], hash, false))
      && (o.Hit? ==> i <= o.slot < LINK && Matches(b[o.slot], hash, false))
      && (o.Hole? ==> i <= o.slot < LINK && b[o.slot] == EMPTY)
    decreases BUCKET_ENTRIES - i
  {
    if i < BUCKET_ENTRIES {
      ScanBucketFirst(b, hash, i + 1);
    }
  }

  /** A lookup that starts at `r` finds an accepted entry of that row, and it
      misses only if the rest of the row has none. */
  lemma {:induction false} FindInRow(s: Store, sh: Shape, r: Ref, hash: nat, withDeleted: bool)
    requires WellFormed(s, sh) && r in s.cells && hash != 0
    ensures var f := Find(s, sh, r, hash, withDeleted);
      && (f.Some? ==> s.Occupied(f.value) && Matches(s.Slot(f.value), hash, withDeleted))
      && (f.None? ==> forall h | s.Occupied(h) && sh.row[h.bucket] == sh.row[r]
                                 && sh.rank[r] <= sh.rank[h.bucket] ::
                        !Matches(s.Slot(h), hash, withDeleted))
    decreases sh.bound - sh.rank[r]
  {
    hide ParentsLink, AtHome;
    FindInBucketFirst(s.cells[r], hash, withDeleted, 0);
    if FindInBucket(s.cells[r], hash, withDeleted, 0).None? {
      if s.Links(r) {
        FindInRow(s, sh, s.Next(r), hash, withDeleted);
      }
      forall h | s.Occupied(h) && sh.row[h.bucket] == sh.row[r] && sh.rank[r] <= sh.rank[h.bucket]
        ensures Find(s, sh, r, hash, withDeleted).None? ==> !Matches(s.Slot(h), hash, withDeleted)
      {
        RowIsOrdered(s, sh, r, h.bucket);
      }
    }
  }

  /** The same for the insert scan: it stops at a live entry with the hash, at an
      unused slot, or at the end of a row that has neither. */
  lemma {:induction false} ScanRow(s: Store, sh: Shape, r: Ref, hash: nat)
    requires WellFormed(s, sh) && r in s.cells && hash != 0
    ensures match Scan(s, sh, r, hash)
      case Exists(h) => s.Occupied(h) && Matches(s.Slot(h), hash, false)
      case Free(h) => s.IsSlot(h) && s.Slot(h) == EMPTY && sh.row[h.bucket] == sh.row[r]
      case Extend(last) =>
        && last in s.cells && !s.Links(last) && sh.row[last] == sh.row[r]
        && (forall h | s.IsSlot(h) && sh.row[h.bucket] == sh.row[r] && sh.rank[r] <= sh.rank[h.bucket] ::
              s.Slot(h).node != 0 && !Matches(s.Slot(h), hash, false))
    decreases sh.bound - sh.rank[r]
  {
    hide ParentsLink, AtHome;
    ScanBucketFirst(s.cells[r], hash, 0);
    if ScanBucket(s.cells[r], hash, 0).Full? {
      if s.Links(r) {
        ScanRow(s, sh, s.Next(r), hash);
      }
      forall h | s.IsSlot(h) && sh.row[h.bucket] == sh.row[r] && sh.rank[r] <= sh.rank[h.bucket]
        ensures Scan(s, sh, r, hash).Extend? ==> s.Slot(h).node != 0 && !Matches(s.Slot(h), hash, false)
      {
        RowIsOrdered(s, sh, r, h.bucket);
      }
    }
  }

  /** Over the whole table: a lookup that starts at the hash's row succeeds
      exactly when some entry is accepted. */
  lemma FindIsComplete(s: Store, sh: Shape, hash: nat, withDeleted: bool)
    requires WellFormed(s, sh) && hash != 0
    ensures var f := Find(s, sh, Row(RowIndex(hash, s.rows)), hash, withDeleted);
      && (f.Some? <==> exists h :: s.Occupied(h) && Matches(s.Slot(h), hash, withDeleted))
      && (f.Some? ==> s.Occupied(f.value) && Matches(s.Slot(f.value), hash, withDeleted))
  {
    FindInRow(s, sh, Row(RowIndex(hash, s.rows)), hash, withDeleted);
  }

  // -------------------------------------------------------------------- rewriting

  /** Overwriting one entry slot. */
  function PutSlot(s: Store, h: Handle, e: Entry): Store
    requires s.IsSlot(h)
  {
    s.(cells := s.cells[h.bucket := s.cells[h.bucket][h.slot := e]])
  }

  lemma PutSlotFrame(s: Store, h: Handle, e: Entry)
    requires s.IsSlot(h)
    ensures var s' := PutSlot(s, h, e);
      && (forall r :: s'.Links(r) == s.Links(r))
      && (forall r | s.Links(r) :: s'.Next(r) == s.Next(r))
      && (forall g :: s'.IsSlot(g) <==> s.IsSlot(g))
      && (forall g | s.IsSlot(g) :: s'.Slot(g) == if g == h then e else s.Slot(g))
  {
  }

  lemma PutSlotKeepsChains(s: Store, sh: Shape, h: Handle, e: Entry)
    requires Linked(s, sh) && s.IsSlot(h)
    ensures Linked(PutSlot(s, h, e), sh)
  {
    var s' := PutSlot(s, h, e);
    PutSlotFrame(s, h, e);
    forall r | r in s'.cells && r.Over?
      ensures s'.Links(sh.parent[r]) && s'.Next(sh.parent[r]) == r
    {
      assert s.Links(sh.parent[r]);
    }
  }

  lemma PutSlotClean(s: Store, h: Handle, e: Entry)
    requires Clean(s) && s.IsSlot(h)
    requires e.node != 0 && e.hash != 0 && !e.overflow
    ensures Clean(PutSlot(s, h, e))
  {
    assert CleanBucket(s.cells[h.bucket][h.slot := e]);
  }

  /** Storing an entry of the right row in a slot keeps the table well formed. */
  lemma PutSlotKeeps(s: Store, sh: Shape, h: Handle, e: Entry)
    requires WellFormed(s, sh) && s.IsSlot(h)
    requires e.node != 0 && e.hash != 0 && !e.overflow
    requires RowIndex(e.hash, s.rows) == sh.row[h.bucket]
    ensures WellFormed(PutSlot(s, h, e), sh)
  {
    PutSlotKeepsChains(s, sh, h, e);
    PutSlotClean(s, h, e);
    assert AtHome(PutSlot(s, h, e), sh) by {
      PutSlotFrame(s, h, e);
    }
  }

  /** A fresh overflow bucket that holds only `e`, linked behind `last`. */
  function ExtendStore(s: Store, last: Ref, id: nat, e: Entry): Store
    requires last in s.cells
  {
    s.(cells := s.cells[last := s.cells[last][LINK := LinkTo(id)]][Over(id) := ZEROED[0 := e]])
  }

  ghost function ExtendShape(sh: Shape, last: Ref, id: nat): Shape
    requires last in sh.row && last in sh.rank
  {
    var n, rank := Over(id), sh.rank[last] + 1;
    Shape(sh.row[n := sh.row[last]], sh.rank[n := rank], sh.parent[n := last],
          if sh.bound <= rank then rank + 1 else sh.bound)
  }

  lemma ExtendLinks(s: Store, last: Ref, id: nat, e: Entry)
    requires last in s.cells && !s.Links(last) && Over(id) !in s.cells
    ensures var s' := ExtendStore(s, last, id, e);
      && (forall r :: s'.Links(r) <==> s.Links(r) || r == last)
      && (forall r | s.Links(r) :: s'.Next(r) == s.Next(r))
      && s'.Next(last) == Over(id)
  {
  }

  lemma ExtendNext(s: Store, sh: Shape, last: Ref, id: nat, e: Entry, r: Ref)
    requires Linked(s, sh) && last in s.cells && !s.Links(last) && id != 0 && Over(id) !in s.cells
    requires ExtendStore(s, last, id, e).Links(r)
    ensures var s', sh' := ExtendStore(s, last, id, e), ExtendShape(sh, last, id); var n := s'.Next(r);
      && r in sh'.row && r in sh'.rank && n in s'.cells && n in sh'.row && n in sh'.rank
      && sh'.row[n] == sh'.row[r] && sh'.rank[r] < sh'.rank[n] && n in sh'.parent && sh'.parent[n] == r
  {
    ExtendLinks(s, last, id, e);
    if r != last {
      assert s.Links(r) && s.Next(r) in s.cells;
    }
  }

  lemma ExtendParent(s: Store, sh: Shape, last: Ref, id: nat, e: Entry, r: Ref)
    requires Linked(s, sh) && last in s.cells && !s.Links(last) && id != 0 && Over(id) !in s.cells
    requires r.Over? && r in ExtendStore(s, last, id, e).cells
    ensures var s', sh' := ExtendStore(s, last, id, e), ExtendShape(sh, last, id);
      r in sh'.parent && s'.Links(sh'.parent[r]) && s'.Next(sh'.parent[r]) == r
  {
    ExtendLinks(s, last, id, e);
    if r != Over(id) {
      assert r in s.cells && s.Links(sh.parent[r]);
    }
  }

  lemma ExtendFramed(s: Store, sh: Shape, last: Ref, id: nat, e: Entry)
    requires Linked(s, sh) && last in s.cells && id != 0 && Over(id) !in s.cells
    ensures Framed(ExtendStore(s, last, id, e), ExtendShape(sh, last, id))
  {
  }

  lemma ExtendKeepsChains(s: Store, sh: Shape, last: Ref, id: nat, e: Entry)
    requires Linked(s, sh) && last in s.cells && !s.Links(last) && id != 0 && Over(id) !in s.cells
    ensures Linked(ExtendStore(s, last, id, e), ExtendShape(sh, last, id))
  {
    hide ExtendStore, ExtendShape;
    var s', sh' := ExtendStore(s, last, id, e), ExtendShape(sh, last, id);
    ExtendFramed(s, sh, last, id, e);
    forall r | s'.Links(r)
      ensures var n := s'.Next(r);
        n in s'.cells && sh'.row[n] == sh'.row[r] && sh'.rank[r] < sh'.rank[n] && n in sh'.parent && sh'.parent[n] == r
    {
      ExtendNext(s, sh, last, id, e, r);
    }
    forall r | r in s'.cells && r.Over?
      ensures r in sh'.parent && s'.Links(sh'.parent[r]) && s'.Next(sh'.parent[r]) == r
    {
      ExtendParent(s, sh, last, id, e, r);
    }
  }

  lemma ExtendSlots(s: Store, last: Ref, id: nat, e: Entry)
    requires last in s.cells && Over(id) !in s.cells && e.node != 0
    ensures var s' := ExtendStore(s, last, id, e);
      && (forall h | s.IsSlot(h) :: s'.IsSlot(h) && s'.Slot(h) == s.Slot(h))
      && (forall h :: s'.Occupied(h) <==> s.Occupied(h) || h == Handle(Over(id), 0))
      && s'.Slot(Handle(Over(id), 0)) == e
  {
  }

  lemma ExtendClean(s: Store, last: Ref, id: nat, e: Entry)
    requires Clean(s) && last in s.cells && id != 0 && Over(id) !in s.cells
    requires e.node != 0 && e.hash != 0 && !e.overflow
    ensures Clean(ExtendStore(s, last, id, e))
  {
    var s' := ExtendStore(s, last, id, e);
    assert CleanBucket(s'.cells[Over(id)]);
    assert CleanBucket(s'.cells[last]) && (last.Over? ==> HoldsNode(s'.cells[last]));
  }

  lemma ExtendKeeps(s: Store, sh: Shape, last: Ref, id: nat, e: Entry)
    requires WellFormed(s, sh) && last in s.cells && !s.Links(last) && id != 0 && Over(id) !in s.cells
    requires e.node != 0 && e.hash != 0 && !e.overflow
    requires RowIndex(e.hash, s.rows) == sh.row[last]
    ensures WellFormed(ExtendStore(s, last, id, e), ExtendShape(sh, last, id))
  {
    var s', sh' := ExtendStore(s, last, id, e), ExtendShape(sh, last, id);
    ExtendKeepsChains(s, sh, last, id, e);
    ExtendClean(s, last, id, e);
    assert AtHome(s', sh') by {
      ExtendSlots(s, last, id, e);
    }
  }

  /** Bucket `b` taken out of its chain, behind `p`, and given back to the pool. */
  function UnlinkStore(s: Store, p: Ref, b: Ref): Store
    requires p in s.cells && b in s.cells
  {
    var link := if s.Links(b) then s.cells[p][LINK].(node := s.cells[b][LINK].node) else EMPTY;
    s.(cells := s.cells[p := s.cells[p][LINK := link]] - {b})
  }

  ghost function UnlinkShape(s: Store, sh: Shape, p: Ref, b: Ref): Shape
    requires b in s.cells
  {
    var parent := if s.Links(b) then sh.parent[s.Next(b) := p] else sh.parent;
    Shape(sh.row - {b}, sh.rank - {b}, parent - {b}, sh.bound)
  }

  lemma UnlinkLinks(s: Store, p: Ref, b: Ref)
    requires s.Links(p) && b in s.cells && p != b
    ensures var s' := UnlinkStore(s, p, b);
      && (forall r :: s'.Links(r) <==> r != b && if r == p then s.Links(b) else s.Links(r))
      && (forall r | s'.Links(r) :: s'.Next(r) == if r == p then s.Next(b) else s.Next(r))
  {
  }

  /** What is left when a bucket is taken out. */
  lemma UnlinkCells(s: Store, sh: Shape, p: Ref, b: Ref)
    requires p in s.cells && b in s.cells && p != b
    ensures var s', sh' := UnlinkStore(s, p, b), UnlinkShape(s, sh, p, b);
      && s'.cells.Keys == s.cells.Keys - {b} && sh'.row == sh.row - {b} && sh'.rank == sh.rank - {b}
      && sh'.parent == (if s.Links(b) then sh.parent[s.Next(b) := p] else sh.parent) - {b}
  {
  }

  lemma UnlinkNext(s: Store, sh: Shape, p: Ref, b: Ref, r: Ref)
    requires Linked(s, sh) && s.Links(p) && s.Next(p) == b && b in s.cells && UnlinkStore(s, p, b).Links(r)
    ensures var s', sh' := UnlinkStore(s, p, b), UnlinkShape(s, sh, p, b); var n := s'.Next(r);
      && r in sh'.row && r in sh'.rank && n in s'.cells && n in sh'.row && n in sh'.rank
      && sh'.row[n] == sh'.row[r] && sh'.rank[r] < sh'.rank[n] && n in sh'.parent && sh'.parent[n] == r
  {
    hide UnlinkStore, UnlinkShape;
    assert sh.parent[b] == p && p != b;
    UnlinkLinks(s, p, b);
    UnlinkCells(s, sh, p, b);
    if r == p {
      assert s.Links(b);
    } else {
      assert s.Links(r);
    }
  }

  lemma UnlinkParent(s: Store, sh: Shape, p: Ref, b: Ref, r: Ref)
    requires Linked(s, sh) && s.Links(p) && s.Next(p) == b && b in s.cells
    requires r.Over? && r in UnlinkStore(s, p, b).cells
    ensures var s', sh' := UnlinkStore(s, p, b), UnlinkShape(s, sh, p, b);
      r in sh'.parent && s'.Links(sh'.parent[r]) && s'.Next(sh'.parent[r]) == r
  {
    assert sh.parent[b] == p && p != b;
    UnlinkLinks(s, p, b);
    assert s.Links(sh.parent[r]) && s.Next(sh.parent[r]) == r;
  }

  lemma UnlinkFramed(s: Store, sh: Shape, p: Ref, b: Ref)
    requires Linked(s, sh) && s.Links(p) && s.Next(p) == b && b in s.cells
    ensures Framed(UnlinkStore(s, p, b), UnlinkShape(s, sh, p, b))
  {
    assert sh.parent[b] == p && p != b;
  }

  lemma UnlinkKeepsChains(s: Store, sh: Shape, p: Ref, b: Ref)
    requires Linked(s, sh) && s.Links(p) && s.Next(p) == b
    ensures Linked(UnlinkStore(s, p, b), UnlinkShape(s, sh, p, b))
  {
    hide UnlinkStore, UnlinkShape;
    assert b in s.cells;
    var s', sh' := UnlinkStore(s, p, b), UnlinkShape(s, sh, p, b);
    UnlinkFramed(s, sh, p, b);
    forall r | s'.Links(r)
      ensures var n := s'.Next(r);
        n in s'.cells && sh'.row[n] == sh'.row[r] && sh'.rank[r] < sh'.rank[n] && n in sh'.parent && sh'.parent[n] == r
    {
      UnlinkNext(s, sh, p, b, r);
    }
    forall r | r in s'.cells && r.Over?
      ensures r in sh'.parent && s'.Links(sh'.parent[r]) && s'.Next(sh'.parent[r]) == r
    {
      UnlinkParent(s, sh, p, b, r);
    }
  }

  lemma UnlinkSlots(s: Store, p: Ref, b: Ref)
    requires p in s.cells && b in s.cells && p != b
    ensures var s' := UnlinkStore(s, p, b);
      && (forall h :: s'.IsSlot(h) <==> s.IsSlot(h) && h.bucket != b)
      && (forall h | s'.IsSlot(h) :: s'.Slot(h) == s.Slot(h))
  {
  }

  lemma UnlinkClean(s: Store, p: Ref, b: Ref)
    requires p in s.cells && b in s.cells && p != b && s.cells[p][LINK].overflow
    requires forall r | r in s.cells :: CleanBucket(s.cells[r]) && (r.Over? && r != b ==> HoldsNode(s.cells[r]))
    ensures Clean(UnlinkStore(s, p, b))
  {
    var s' := UnlinkStore(s, p, b);
    assert s'.cells[p] == s.cells[p][LINK := s.cells[b][LINK]];
  }

  /** Giving back a bucket whose last entry is gone keeps the table well formed. */
  lemma UnlinkKeeps(s: Store, sh: Shape, p: Ref, b: Ref)
    requires s.rows > 0 && Linked(s, sh) && s.Links(p) && s.Next(p) == b
    requires forall r | r in s.cells :: CleanBucket(s.cells[r]) && (r.Over? && r != b ==> HoldsNode(s.cells[r]))
    requires AtHome(s, sh)
    ensures WellFormed(UnlinkStore(s, p, b), UnlinkShape(s, sh, p, b))
  {
    assert b in s.cells && sh.parent[b] == p && p != b;
    var s', sh' := UnlinkStore(s, p, b), UnlinkShape(s, sh, p, b);
    UnlinkKeepsChains(s, sh, p, b);
    UnlinkClean(s, p, b);
    assert AtHome(s', sh') by {
      UnlinkSlots(s, p, b);
      assert forall h | s'.Occupied(h) :: s.Occupied(h);
    }
  }
}
