/** Notions that several components share. */
module Lists {

  datatype Option<+T> = None | Some(value: T)

  predicate NoDuplicates(q: seq<nat>) {
    forall i, j | 0 <= i < j < |q| :: q[i] != q[j]
  }

  lemma TailDistinct(q: seq<nat>)
    requires NoDuplicates(q) && q != []
    ensures NoDuplicates(q[1..]) && q[0] !in q[1..]
  {
    var t := q[1..];
    forall i, j | 0 <= i < j < |t|
      ensures t[i] != t[j]
    {
      assert q[i + 1] != q[j + 1];
    }
  }

  lemma ConsDistinct(x: nat, q: seq<nat>)
    requires NoDuplicates(q) && x !in q
    ensures NoDuplicates([x] + q)
  {
    var r := [x] + q;
    forall i, j | 0 <= i < j < |r|
      ensures r[i] != r[j]
    {
      assert r[j] == q[j - 1];
      if i > 0 {
        assert r[i] == q[i - 1];
      }
    }
  }

  function ToSet(q: seq<nat>): set<nat> {
    set x | x in q
  }

  /** A list with one more element, unless it is there. */
  function Record(q: seq<nat>, x: nat): seq<nat> {
    if x in q then q else q + [x]
  }

  /** The set of a list, taken from its end. */
  lemma LastSet(q: seq<nat>)
    requires q != []
    ensures ToSet(q) == ToSet(q[..|q| - 1]) + {q[|q| - 1]}
  {
    assert q == q[..|q| - 1] + [q[|q| - 1]];
  }

  lemma {:induction false} SetSize(q: seq<nat>)
    requires NoDuplicates(q)
    ensures |ToSet(q)| == |q|
  {
    if q != [] {
      SetSize(q[..|q| - 1]);
      LastSet(q);
    }
  }

  lemma SubsetSize<T>(a: set<T>, b: set<T>)
    requires a <= b
    ensures |a| <= |b|
  {
    assert b == a + (b - a);
  }

  /** The first `n` elements of an array. */
  ghost function Front<T>(a: array<T>, n: nat): (q: seq<T>)
    requires n <= a.Length
    reads a
    ensures |q| == n
  {
    a[..n]
  }
}
