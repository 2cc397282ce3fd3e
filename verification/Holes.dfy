/** When an insert without a lookup duplicates a hash: exactly if an unused slot of the row
    comes before the live entry, in the order of the walk (hicn-plugin/src/hashtb.c). */
module Holes {
  import opened Lists
  import opened Table
  import opened HashTable
  import opened TableMap

  /** The walk along the row comes to `g` first. */
  ghost predicate Before(sh: Shape, g: Handle, h: Handle)
    requires g.bucket in sh.rank && h.bucket in sh.rank
  {
    sh.rank[g.bucket] < sh.rank[h.bucket] || (g.bucket == h.bucket && g.slot < h.slot)
  }

  /** The insert scan stops here: at a hole, or at a live entry with the hash. */
  ghost predicate Stops(s: Store, h: Handle, hash: nat) {
    s.IsSlot(h) && (s.Slot(h).node == 0 || Matches(s.Slot(h), hash, false))
  }

  lemma {:induction false} BucketIsFirst(b: Bucket, hash: nat, i: nat)
    requires CleanBucket(b) && hash != 0 && i <= BUCKET_ENTRIES
    ensures var o := ScanBucket(b, hash, i);
      !o.Full? ==> i <= o.slot < LINK && forall k | i <= k < o.slot :: b[k].node != 0 && !Matches(b[k], hash, false)
    decreases BUCKET_ENTRIES - i
  {
    if i < BUCKET_ENTRIES {
      BucketIsFirst(b, hash, i + 1);
      ScanBucketFirst(b, hash, i);
    }
  }

  function PlaceOf(p: Place): Option<Handle> {
    match p
    case Exists(h) => Some(h)
    case Free(h) => Some(h)
    case Extend(_) => None
  }

  /** What the scan finds is the first slot of the row where it could stop. */
  lemma {:induction false} ScanIsFirst(s: Store, sh: Shape, r: Ref, hash: nat)
    requires WellFormed(s, sh) && r in s.cells && hash != 0
    ensures var p := PlaceOf(Scan(s, sh, r, hash));
      p.Some? ==>
        && p.value.bucket in s.cells && sh.row[p.value.bucket] == sh.row[r] && sh.rank[r] <= sh.rank[p.value.bucket]
        && forall k | s.IsSlot(k) && sh.row[k.bucket] == sh.row[r] && sh.rank[r] <= sh.rank[k.bucket] && Before(sh, k, p.value) ::
             !Stops(s, k, hash)
    decreases sh.bound - sh.rank[r]
  {
    hide ParentsLink, AtHome;
    BucketIsFirst(s.cells[r], hash, 0);
    ScanBucketFirst(s.cells[r], hash, 0);
    var p := PlaceOf(Scan(s, sh, r, hash));
    if ScanBucket(s.cells[r], hash, 0).Full? && s.Links(r) {
      ScanIsFirst(s, sh, s.Next(r), hash);
      forall k | p.Some? && s.IsSlot(k) && sh.row[k.bucket] == sh.row[r] && sh.rank[r] <= sh.rank[k.bucket] && Before(sh, k, p.value)
        ensures !Stops(s, k, hash)
      {
        RowIsOrdered(s, sh, r, k.bucket);
      }
    }
  }

  /** An unused slot of the row comes before the entry. */
  ghost predicate HoleBefore(s: Store, sh: Shape, g: Handle)
    requires WellFormed(s, sh) && g.bucket in s.cells
  {
    exists h :: s.IsSlot(h) && s.Slot(h).node == 0 && sh.row[h.bucket] == sh.row[g.bucket] && Before(sh, h, g)
  }

  /** Two slots of a row are ordered. */
  lemma SlotsAreOrdered(s: Store, sh: Shape, g: Handle, h: Handle)
    requires WellFormed(s, sh) && s.IsSlot(g) && s.IsSlot(h) && sh.row[g.bucket] == sh.row[h.bucket]
    ensures g == h || Before(sh, g, h) || Before(sh, h, g)
  {
    if sh.rank[g.bucket] == sh.rank[h.bucket] {
      RowIsOrdered(s, sh, g.bucket, h.bucket);
      RowIsOrdered(s, sh, h.bucket, g.bucket);
    }
  }

  lemma EntryIsThere(t: Tab, sh: Shape, c: Entries, g: Handle)
    requires Good(t, sh, c) && g in c
    ensures t.store.IsSlot(g) && t.store.Slot(g) == c[g] && c[g].node != 0 && g.bucket in sh.row && g.bucket in sh.rank
    ensures sh.row[g.bucket] == RowIndex(c[g].hash, t.store.rows)
  {
    assert t.store.Occupied(g);
  }

  /** With a live entry of the hash the scan finds it, unless a hole comes before. */
  lemma ScanFreeIff(t: Tab, sh: Shape, c: Entries, hash: nat, g: Handle)
    requires Good(t, sh, c) && Unique(c) && hash != 0 && g in c && Matches(c[g], hash, false)
    ensures g.bucket in t.store.cells
    ensures Scan(t.store, sh, t.Start(hash), hash).Free? <==> HoleBefore(t.store, sh, g)
    ensures !HoleBefore(t.store, sh, g) ==> Scan(t.store, sh, t.Start(hash), hash) == Exists(g)
  {
    hide LinksAscend, ParentsLink, Clean, AtHome, CleanBucket;
    var s, r := t.store, t.Start(hash);
    EntryIsThere(t, sh, c, g);
    StartIsRow(t, sh, hash);
    var place := Scan(s, sh, r, hash);
    ScanIsFirst(s, sh, r, hash);
    ScanRow(s, sh, r, hash);
    match place
    case Extend(_) =>
      assert false;
    case Exists(h) =>
      assert h in c && h == g;
      assert forall k | s.IsSlot(k) && sh.row[k.bucket] == sh.row[g.bucket] && Before(sh, k, g) :: !Stops(s, k, hash);
    case Free(h) =>
      SlotsAreOrdered(s, sh, g, h);
      assert Stops(s, g, hash);
  }

  lemma StartIsRow(t: Tab, sh: Shape, hash: nat)
    requires WellFormed(t.store, sh)
    ensures t.Start(hash) in t.store.cells && sh.row[t.Start(hash)] == RowIndex(hash, t.store.rows) && sh.rank[t.Start(hash)] == 0
  {
  }

  /** The insert will give the hash a second live entry. */
  ghost predicate WillDouble(t: Tab, sh: Shape, c: Entries, hash: nat)
    requires Good(t, sh, c)
  {
    exists g :: g in c && Matches(c[g], hash, false) && g.bucket in t.store.cells && HoleBefore(t.store, sh, g)
  }

  /** An insert keeps live hashes unique if and only if there is no live entry of the
      hash with a hole of its row before it. */
  lemma InsertUniqueIff(t: Tab, sh: Shape, c: Entries, e: Entry, c': Entries, r: InsertResult)
    requires Good(t, sh, c) && Unique(c) && e.hash != 0 && !e.deleted && Inserts(c, e, c', r)
    requires Follows(Scan(t.store, sh, t.Start(e.hash), e.hash), NoBucket(t), r)
    ensures Unique(c') <==> !WillDouble(t, sh, c, e.hash)
    ensures r.Inserted? ==> (Missing(c, e.hash) <==> !WillDouble(t, sh, c, e.hash))
  {
    hide Good, HoleBefore;
    if Missing(c, e.hash) {
      assert !WillDouble(t, sh, c, e.hash);
      if r.Inserted? {
        InsertUnique(c, r.h, e);
      }
    } else {
      var g :| g in c && Matches(c[g], e.hash, false);
      ScanFreeIff(t, sh, c, e.hash, g);
      assert forall h | h in c && Matches(c[h], e.hash, false) :: h == g;
      if r.Inserted? {
        InsertUnique(c, r.h, e);
      } else {
        LockUnique(c, r.h);
      }
    }
  }

  lemma LockUnique(c: Entries, h: Handle)
    requires Unique(c) && h in c
    ensures Unique(c[h := c[h].(locks := c[h].locks + 1)])
  {
  }

  /** The same of the code: a node installed without a lookup. */
  method InstallBlindly(t: Tab, ghost sh: Shape, ghost c: Entries, name: nat, hash: nat)
    returns (t': Tab, n: nat, r: InsertResult, ghost sh': Shape, ghost c': Entries)
    requires Good(t, sh, c) && Unique(c) && hash != 0
    ensures Good(t', sh', c')
    ensures Unique(c') <==> n == 0 || !WillDouble(t, sh, c, hash)
  {
    hide Good, WillDouble, Unique;
    t', n, r, sh', c' := Install(t, sh, c, name, hash, 0, 0);
    if n != 0 {
      InsertUniqueIff(t, sh, c, NewEntry(n, hash, 0, 0), c', r);
    }
  }
}
