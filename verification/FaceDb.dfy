/** The list of faces a pending interest came from, kept in every PIT entry
    (hicn-plugin/src/face_db.h), its use on an aggregated or retransmitted interest
    (interest_hitpit_node.c) and when data satisfies it (data_fwd_node.c).

    The first faces are stored inline, the others in a bucket taken from a pool.  The
    bucket has twelve places, but is indexed with the mask eleven, which is not of the
    form 2^k - 1.  A bitmap in the bucket tells which faces are listed. */
module FaceDb {
  import opened Lists
  import Table

  type Face = nat

  const INLINE := 8
  const BUCKET := 12
  const FACES_MAX := 512
  const BITMAP_BYTES := 64

  // -------------------------------------------------------------------------- places

  /** The place of the face with index `i`: inline places come first. */
  function Slot(i: nat): (k: nat)
    ensures k < INLINE + BUCKET
    ensures i < INLINE <==> k < INLINE
  {
    if i < INLINE then i else INLINE + Table.BitAnd(i - INLINE, BUCKET - 1)
  }

  /** No later index has the same place. */
  ghost predicate Latest(n: nat, j: nat) {
    forall k: nat | j < k < n :: Slot(k) != Slot(j)
  }

  /** Every place holds the last face written to it. */
  ghost predicate Stored(cells: seq<Face>, faces: seq<Face>) {
    && |cells| == INLINE + BUCKET
    && forall j: nat | j < |faces| && Latest(|faces|, j) :: cells[Slot(j)] == faces[j]
  }

  /** The faces that data is sent to. */
  function ReadAll(cells: seq<Face>, n: nat): (r: seq<Face>)
    requires |cells| == INLINE + BUCKET
    ensures |r| == n
  {
    seq(n, i requires 0 <= i < n => cells[Slot(i)])
  }

  lemma StoreKeeps(cells: seq<Face>, faces: seq<Face>, f: Face)
    requires Stored(cells, faces)
    ensures Stored(cells[Slot(|faces|) := f], faces + [f])
  {
    var faces' := faces + [f];
    forall j: nat | j < |faces'| && Latest(|faces'|, j)
      ensures cells[Slot(|faces|) := f][Slot(j)] == faces'[j]
    {
      if j < |faces| {
        assert Slot(|faces|) != Slot(j);
        assert Latest(|faces|, j);
      }
    }
  }

  /** The first twelve indices have places of their own. */
  lemma FirstSlots(i: nat)
    requires i < 12
    ensures Slot(i) == i
  {
    assert Table.BitAnd(1, 5) == 1;
    assert Table.BitAnd(2, 11) == 2 && Table.BitAnd(3, 11) == 3;
  }

  /** The thirteenth does not. */
  lemma Collide()
    ensures Slot(12) == Slot(8) == 8
  {
    assert Table.BitAnd(1, 2) == 0;
    assert Table.BitAnd(2, 5) == 0;
    assert Table.BitAnd(4, 11) == 0;
  }

  lemma {:induction false} LatestExists(n: nat, j: nat) returns (k: nat)
    requires j < n
    ensures j <= k < n && Slot(k) == Slot(j) && Latest(n, k)
    decreases n - j
  {
    if Latest(n, j) {
      k := j;
    } else {
      var j': nat :| j < j' < n && Slot(j') == Slot(j);
      k := LatestExists(n, j');
    }
  }

  /** Data goes to the faces listed, in order, as long as there are at most twelve. */
  lemma ReadsBack(cells: seq<Face>, faces: seq<Face>)
    requires Stored(cells, faces) && |faces| <= 12
    ensures ReadAll(cells, |faces|) == faces
  {
    forall i: nat | i < |faces|
      ensures cells[Slot(i)] == faces[i]
    {
      forall k: nat | i < k < |faces|
        ensures Slot(k) != Slot(i)
      {
        FirstSlots(k);
        FirstSlots(i);
      }
      assert Latest(|faces|, i);
    }
  }

  /** Data goes to a listed face exactly if no later one took its place. */
  lemma ServedIff(cells: seq<Face>, faces: seq<Face>, j: nat)
    requires Stored(cells, faces) && NoDuplicates(faces) && j < |faces|
    ensures faces[j] in ReadAll(cells, |faces|) <==> Latest(|faces|, j)
  {
    var r := ReadAll(cells, |faces|);
    if Latest(|faces|, j) {
      assert r[j] == faces[j];
    }
    if faces[j] in r {
      var i :| 0 <= i < |r| && r[i] == faces[j];
      var k := LatestExists(|faces|, i);
      assert cells[Slot(k)] == faces[k];
      assert k == j;
    }
  }

  /** With more than twelve the ninth face gets none: the thirteenth has its place. */
  lemma ReadsOther(cells: seq<Face>, faces: seq<Face>)
    requires Stored(cells, faces) && NoDuplicates(faces) && |faces| > 12
    ensures faces[8] !in ReadAll(cells, |faces|)
  {
    Collide();
    ServedIff(cells, faces, 8);
  }

  /** Data goes to every listed face, and in order, exactly if there are at most twelve. */
  lemma ReadsBackIff(cells: seq<Face>, faces: seq<Face>)
    requires Stored(cells, faces) && NoDuplicates(faces)
    ensures (forall f | f in faces :: f in ReadAll(cells, |faces|)) <==> |faces| <= 12
    ensures ReadAll(cells, |faces|) == faces <==> |faces| <= 12
  {
    if |faces| <= 12 {
      ReadsBack(cells, faces);
    } else {
      ReadsOther(cells, faces);
      assert faces[8] in faces;
    }
  }

  // -------------------------------------------------------------------------- bitmap

  function SetBit(b: bv8, k: nat): bv8
    requires k < 8
  {
    b | (1 << k)
  }

  predicate TestBit(b: bv8, k: nat)
    requires k < 8
  {
    (b >> k) & 1 == 1
  }

  function Mask(k: nat): bv8 {
    if k == 0 then 1 else if k == 1 then 2 else if k == 2 then 4 else if k == 3 then 8
    else if k == 4 then 16 else if k == 5 then 32 else if k == 6 then 64 else 128
  }

  lemma SetIsMask(b: bv8, k: nat)
    requires k < 8
    ensures SetBit(b, k) == b | Mask(k)
  {
  }

  lemma TestIsMask(b: bv8, k: nat)
    requires k < 8
    ensures TestBit(b, k) <==> b & Mask(k) != 0
  {
  }

  lemma MaskSetThenTest(b: bv8, k: nat, j: nat)
    requires k < 8 && j < 8
    ensures (b | Mask(k)) & Mask(j) != 0 <==> j == k || b & Mask(j) != 0
  {
  }

  lemma SetThenTest(b: bv8, k: nat, j: nat)
    requires k < 8 && j < 8
    ensures TestBit(SetBit(b, k), j) <==> j == k || TestBit(b, j)
  {
    hide TestBit, SetBit, Mask;
    SetIsMask(b, k);
    TestIsMask(SetBit(b, k), j);
    TestIsMask(b, j);
    MaskSetThenTest(b, k, j);
  }

  /** The bit of a face in the bitmap. */
  predicate Bit(bitmap: seq<bv8>, b: nat)
    requires |bitmap| == BITMAP_BYTES && b < FACES_MAX
  {
    TestBit(bitmap[b / 8], b - b / 8 * 8)
  }

  ghost function Marks(faces: seq<Face>): set<nat> {
    set f | f in faces :: f % FACES_MAX
  }

  lemma MarksOfSnoc(faces: seq<Face>, f: Face)
    ensures Marks(faces + [f]) == Marks(faces) + {f % FACES_MAX}
  {
    forall b
      ensures b in Marks(faces + [f]) <==> b in Marks(faces) || b == f % FACES_MAX
    {
      if b == f % FACES_MAX {
        assert f in faces + [f];
      }
      if b in Marks(faces) {
        var g :| g in faces && g % FACES_MAX == b;
        assert g in faces + [f];
      }
    }
  }

  /** Exactly the bits of the listed faces are set. */
  ghost predicate Marked(bitmap: seq<bv8>, faces: seq<Face>) {
    && |bitmap| == BITMAP_BYTES
    && forall b: nat | b < FACES_MAX :: Bit(bitmap, b) <==> b in Marks(faces)
  }

  /** A bucket is free with no bit set. */
  ghost predicate Clean(bitmap: seq<bv8>) {
    |bitmap| == BITMAP_BYTES && forall i | 0 <= i < |bitmap| :: bitmap[i] == 0
  }

  lemma CleanIsMarked(bitmap: seq<bv8>)
    requires Clean(bitmap)
    ensures Marked(bitmap, [])
  {
    hide TestBit;
    forall b: nat | b < FACES_MAX
      ensures !Bit(bitmap, b)
    {
      ZeroTest(b - b / 8 * 8);
    }
  }

  lemma ZeroTest(k: nat)
    requires k < 8
    ensures !TestBit(0, k)
  {
  }

  lemma MarkKeeps(bitmap: seq<bv8>, faces: seq<Face>, f: Face)
    requires Marked(bitmap, faces)
    ensures var b := f % FACES_MAX; Marked(bitmap[b / 8 := SetBit(bitmap[b / 8], b - b / 8 * 8)], faces + [f])
  {
    hide TestBit, SetBit;
    var b := f % FACES_MAX;
    var bitmap' := bitmap[b / 8 := SetBit(bitmap[b / 8], b - b / 8 * 8)];
    MarksOfSnoc(faces, f);
    forall c: nat | c < FACES_MAX
      ensures Bit(bitmap', c) <==> c in Marks(faces) + {b}
    {
      SetThenTest(bitmap[b / 8], b - b / 8 * 8, c - c / 8 * 8);
    }
  }

  /** With face identifiers below 512 the bitmap is the set of the listed faces. */
  lemma MarksAreFaces(faces: seq<Face>, f: Face)
    requires f < FACES_MAX && forall g | g in faces :: g < FACES_MAX
    ensures f % FACES_MAX in Marks(faces) <==> f in faces
  {
    assert forall g | g in faces :: g % FACES_MAX == g;
    assert f % FACES_MAX == f;
  }

  lemma ListedIsMarked(faces: seq<Face>, f: Face)
    ensures f in faces ==> f % FACES_MAX in Marks(faces)
  {
  }

  /** The contents of an array. */
  ghost function All<T>(a: array<T>): (q: seq<T>)
    reads a
    ensures |q| == a.Length
  {
    a[..]
  }

  class FaceDb {
    const inlineFaces: array<Face>
    const faces: array<Face>
    const bitmap: array<bv8>
    var nFaces: nat
    /** The faces added, in order. */
    ghost var added: seq<Face>

    ghost predicate Shaped()
      reads this
    {
      && inlineFaces.Length == INLINE && faces.Length == BUCKET && bitmap.Length == BITMAP_BYTES
      && inlineFaces != faces && nFaces == |added|
    }

    ghost function Cells(): (c: seq<Face>)
      requires Shaped()
      reads this, inlineFaces, faces
      ensures |c| == INLINE + BUCKET
    {
      All(inlineFaces) + All(faces)
    }

    ghost predicate Valid()
      reads this, inlineFaces, faces, bitmap
    {
      Shaped() && Stored(Cells(), added) && Marked(All(bitmap), added)
    }

    /** A list in a new PIT entry, with a bucket that was free. */
    constructor (bucket: array<Face>, bits: array<bv8>)
      requires bucket.Length == BUCKET && Clean(All(bits))
      ensures Valid() && added == [] && faces == bucket && bitmap == bits && fresh(inlineFaces)
    {
      inlineFaces := new Face[INLINE](_ => 0);
      faces, bitmap, nFaces, added := bucket, bits, 0, [];
      new;
      CleanIsMarked(All(bits));
    }

    /** The face at an index. */
    method Get(index: nat) returns (f: Face)
      requires Valid() && index < nFaces
      ensures f == ReadAll(Cells(), nFaces)[index]
    {
      if index < INLINE {
        f := inlineFaces[index];
      } else {
        f := faces[Table.BitAnd(index - INLINE, BUCKET - 1)];
      }
    }

    /** Whether a face is listed, as far as the bitmap knows. */
    method Search(f: Face) returns (found: bool)
      requires Valid()
      ensures found <==> f % FACES_MAX in Marks(added)
    {
      hide TestBit;
      var b := f % FACES_MAX;
      found := TestBit(bitmap[b / 8], b - b / 8 * 8);
      assert found == Bit(All(bitmap), b);
    }

    method Add(f: Face)
      requires Valid()
      modifies this`nFaces, this`added, inlineFaces, faces, bitmap
      ensures Valid() && added == old(added) + [f]
    {
      hide Stored, Marked, SetBit;
      StoreKeeps(Cells(), added, f);
      MarkKeeps(All(bitmap), added, f);
      PutFace(f);
      var b := f % FACES_MAX;
      bitmap[b / 8] := SetBit(bitmap[b / 8], b - b / 8 * 8);
      nFaces := nFaces + 1;
      added := added + [f];
    }

    method PutFace(f: Face)
      requires Shaped()
      modifies inlineFaces, faces
      ensures Cells() == old(Cells())[Slot(nFaces) := f]
    {
      if nFaces < INLINE {
        inlineFaces[nFaces] := f;
      } else {
        faces[Table.BitAnd(nFaces - INLINE, BUCKET - 1)] := f;
      }
    }

    /** Clear the list; its bucket goes back to the pool as it came. */
    method Flush()
      requires Valid()
      modifies this`nFaces, this`added, bitmap
      ensures Valid() && added == [] && Clean(All(bitmap))
    {
      for i := 0 to BITMAP_BYTES
        invariant forall k | 0 <= k < i :: bitmap[k] == 0
      {
        bitmap[i] := 0;
      }
      nFaces, added := 0, [];
      CleanIsMarked(All(bitmap));
    }

    /** An interest for a pending name: a face that is marked retransmits, another is
        added.  With identifiers below 512 those are the listed ones and the others. */
    method OnInterest(f: Face) returns (found: bool)
      requires Valid() && NoDuplicates(added)
      modifies this`nFaces, this`added, inlineFaces, faces, bitmap
      ensures Valid() && NoDuplicates(added)
      ensures found <==> f % FACES_MAX in Marks(old(added))
      ensures f < FACES_MAX && (forall g | g in old(added) :: g < FACES_MAX) ==> (found <==> f in old(added)) && added == Record(old(added), f)
      ensures added == if found then old(added) else old(added) + [f]
    {
      hide Stored, Marked, Marks;
      ListedIsMarked(added, f);
      if f < FACES_MAX && forall g | g in added :: g < FACES_MAX {
        MarksAreFaces(added, f);
      }
      found := Search(f);
      if !found {
        Add(f);
      }
    }

    /** Send data to the faces listed: each of them gets it, exactly if there are at
        most twelve. */
    method Satisfy() returns (sent: seq<Face>)
      requires Valid() && NoDuplicates(added)
      ensures sent == ReadAll(Cells(), nFaces)
      ensures (forall f | f in added :: f in sent) <==> nFaces <= 12
      ensures sent == added <==> nFaces <= 12
    {
      hide Stored, Marked, NoDuplicates, Slot;
      ReadsBackIff(Cells(), added);
      sent := [];
      for i := 0 to nFaces
        invariant sent == ReadAll(Cells(), nFaces)[..i]
      {
        var f := Get(i);
        sent := sent + [f];
      }
    }
  }
}
