/** Whether the forwarder keeps live hashes unique.  Its inserts come some steps after
    the lookup that missed, and other packets may act in between. */
module Uniqueness {
  import opened Lists
  import opened Table
  import opened Pcs
  import opened PcsInvariant
  import opened Graph
  import opened TableMap
  import Holes
  import Runs
  import Locks
  import HashTable

  /** The step puts a new entry in the table. */
  predicate Inserting(s: State, step: Step) {
    step.Strategy? && step.routed && |s.nodes| + 1 < s.nodeCount && step.result.Inserted?
  }

  /** It does so although a live entry has the hash. */
  ghost predicate Doubles(s: State, step: Step) {
    Inserting(s, step) && step.b in s.packets && !Missing(s.entries, s.packets[step.b].hash)
  }

  lemma InsertedEntries(s: State, step: Step)
    requires Safe(s) && Enabled(s, step) && Inserting(s, step)
    ensures var e := NewEntry(step.node, s.packets[step.b].hash, step.dpo, step.vft);
      step.result.h !in s.entries && Next(s, step).entries == s.entries[step.result.h := e]
  {
    hide Inv;
  }

  /** Any other step only takes entries away or marks them. */
  lemma OtherEntries(s: State, step: Step, h: Handle)
    requires Safe(s) && Enabled(s, step) && !Inserting(s, step) && h in Next(s, step).entries
    ensures h in s.entries && Next(s, step).entries[h].hash == s.entries[h].hash
    ensures s.entries[h].deleted ==> Next(s, step).entries[h].deleted
  {
    hide Inv, Next, Enabled, Matches;
    var s' := Next(s, step);
    Runs.EvolvesStep(s, step);
    Runs.PastOfEntries(s);
    Runs.PastOfEntries(s');
    if step.Strategy? {
      Locks.StrategyIs(s, step);
    } else {
      Locks.StepKeepsPast(s, step);
    }
  }

  lemma OtherUnique(s: State, step: Step)
    requires Safe(s) && Enabled(s, step) && !Inserting(s, step) && Unique(s.entries)
    ensures Unique(Next(s, step).entries)
  {
    hide Inv, Next, Enabled;
    var c := Next(s, step).entries;
    forall g, h | g in c && h in c && !c[g].deleted && !c[h].deleted && c[g].hash == c[h].hash
      ensures g == h
    {
      OtherEntries(s, step, g);
      OtherEntries(s, step, h);
    }
  }

  /** A step keeps live hashes unique if and only if it does not insert a hash that a
      live entry has. */
  lemma StepUniqueIff(s: State, step: Step)
    requires Safe(s) && Enabled(s, step) && Unique(s.entries)
    ensures Unique(Next(s, step).entries) <==> !Doubles(s, step)
  {
    hide Inv, Next, Unique, Missing;
    if Inserting(s, step) {
      InsertedEntries(s, step);
      InsertUnique(s.entries, step.result.h, NewEntry(step.node, s.packets[step.b].hash, step.dpo, step.vft));
    } else {
      OtherUnique(s, step);
    }
  }

  /** On the table, before the insert: the strategy node keeps live hashes unique if and
      only if it does not insert, or no hole of the row comes before a live entry of the
      hash. */
  lemma StrategyUniqueIff(s: State, step: Step, t: HashTable.Tab, sh: Shape)
    requires Safe(s) && Enabled(s, step) && step.Strategy? && Unique(s.entries)
    requires HashTable.Good(t, sh, s.entries) && s.packets[step.b].hash != 0
    requires var hash := s.packets[step.b].hash;
      step.routed && |s.nodes| + 1 < s.nodeCount ==>
        HashTable.Follows(Scan(t.store, sh, t.Start(hash), hash), HashTable.NoBucket(t), step.result)
    ensures Unique(Next(s, step).entries) <==>
      !(step.routed && |s.nodes| + 1 < s.nodeCount && Holes.WillDouble(t, sh, s.entries, s.packets[step.b].hash))
  {
    hide Inv, Next, Unique, Missing, HashTable.Good, Matches, Holes.WillDouble;
    StepUniqueIff(s, step);
    if step.routed && |s.nodes| + 1 < s.nodeCount {
      DoublesIff(s, step, t, sh);
    }
  }

  lemma DoublesIff(s: State, step: Step, t: HashTable.Tab, sh: Shape)
    requires Enabled(s, step) && step.Strategy? && Unique(s.entries) && HashTable.Good(t, sh, s.entries)
    requires step.routed && |s.nodes| + 1 < s.nodeCount && s.packets[step.b].hash != 0
    requires var hash := s.packets[step.b].hash;
      HashTable.Follows(Scan(t.store, sh, t.Start(hash), hash), HashTable.NoBucket(t), step.result)
    ensures Doubles(s, step) <==> Holes.WillDouble(t, sh, s.entries, s.packets[step.b].hash)
  {
    hide HashTable.Good, Unique, Holes.WillDouble;
    var c := s.entries;
    var e := NewEntry(step.node, s.packets[step.b].hash, step.dpo, step.vft);
    var c' := match step.result
      case Inserted(h) => c[h := e]
      case Exist(h) => if c[h].isCs then c else c[h := c[h].(locks := c[h].locks + 1)]
      case NoMem => c;
    Holes.InsertUniqueIff(t, sh, c, e, c', step.result);
    if step.result.Exist? {
      Holes.LockUnique(c, step.result.h);
    }
  }

  ghost predicate NeverDoubles(s: State, steps: seq<Step>)
    requires Safe(s) && Runs.Runs(s, steps)
    decreases |steps|
  {
    steps == [] || (!Doubles(s, steps[0]) && NeverDoubles(Next(s, steps[0]), steps[1..]))
  }

  /** So do runs without such a step. */
  lemma {:induction false} RunUnique(s: State, steps: seq<Step>)
    requires Safe(s) && Runs.Runs(s, steps) && Unique(s.entries) && NeverDoubles(s, steps)
    ensures Unique(Runs.Final(s, steps).entries)
    decreases |steps|
  {
    hide Inv, Safe, Next, Enabled, Unique, Doubles;
    if steps != [] {
      StepUniqueIff(s, steps[0]);
      RunUnique(Next(s, steps[0]), steps[1..]);
    }
  }

  // --------------------------------------------------------------- it does not always

  /** Two hashes of one row. */
  datatype Pair = Pair(row: nat, a: nat, b: nat) {
    const first := First(row)
    const second := Second(row)

    predicate Apart() {
      a != 0 && b != 0 && a != b
    }
  }

  /** One interest is installed; two for another name miss; the first of them is
      installed; data takes the other entry away; the second of them is installed. */
  function Race(x: Pair): seq<Step> {
    [Arrive(1, false, x.a, 50, 3), InterestLookup(1, true, None),
     Strategy(1, true, 1, 1, 0, 0, 100, HashTable.Inserted(x.first)),
     Arrive(2, false, x.b, 70, 3), Arrive(3, false, x.b, 70, 4), InterestLookup(2, true, None), InterestLookup(3, true, None),
     Strategy(2, true, 2, 2, 0, 0, 100, HashTable.Inserted(x.second)),
     Arrive(4, true, x.a, 50, 6), DataLookup(4, true, Some(x.first)), DataFwd(4, true, 0, true, 0),
     Strategy(3, true, 3, 3, 0, 0, 100, HashTable.Inserted(x.first))]
  }

  function Wait(x: Pair, face: nat): Packet {
    Packet(false, x.b, 70, face, AtStrategy)
  }

  /** The states after three, seven, eight and eleven steps. */
  function One(x: Pair, max: nat, nodeCount: nat): State {
    State(map[x.first := NewEntry(1, x.a, 0, 0)], map[1 := Node(x.first, 50, Pit([3], 1, 100))], 1, 0, [], max, nodeCount,
          map[1 := 1], map[], map[], History(1, map[x.first := 0], map[x.first := 0], 0))
  }

  function OneAndWaiting(x: Pair, max: nat, nodeCount: nat): State {
    One(x, max, nodeCount).(packets := map[2 := Wait(x, 3), 3 := Wait(x, 4)])
  }

  function TwoAndWaiting(x: Pair, max: nat, nodeCount: nat): State {
    State(map[x.first := NewEntry(1, x.a, 0, 0), x.second := NewEntry(2, x.b, 0, 0)],
          map[1 := Node(x.first, 50, Pit([3], 1, 100)), 2 := Node(x.second, 70, Pit([3], 2, 100))], 2, 0, [], max, nodeCount,
          map[1 := 1, 2 := 2], map[], map[3 := Wait(x, 4)], History(2, map[x.first := 0, x.second := 1], map[x.first := 0, x.second := 0], 0))
  }

  function OtherAndWaiting(x: Pair, max: nat, nodeCount: nat): State {
    State(map[x.second := NewEntry(2, x.b, 0, 0)],
          map[2 := Node(x.second, 70, Pit([3], 2, 100))], 1, 0, [], max, nodeCount,
          map[2 := 2], map[], map[3 := Wait(x, 4)], History(2, map[x.second := 1], map[x.second := 0], 0))
  }

  lemma FirstThree(x: Pair, max: nat, nodeCount: nat, rest: seq<Step>)
    requires x.Apart() && nodeCount >= 4
    ensures Safe(One(x, max, nodeCount))
    ensures Runs.Runs(One(x, max, nodeCount), rest) ==>
      && Runs.Runs(Runs.Initial(max, nodeCount), Race(x)[..3] + rest)
      && Runs.Final(Runs.Initial(max, nodeCount), Race(x)[..3] + rest) == Runs.Final(One(x, max, nodeCount), rest)
  {
    hide Inv;
    var k := Race(x);
    var s0 := Runs.Initial(max, nodeCount);
    var s1 := Next(s0, k[0]);
    var s2 := Next(s1, k[1]);
    assert s2.packets == map[1 := Packet(false, x.a, 50, 3, AtStrategy)];
    var s3 := Next(s2, k[2]);
    assert s3 == One(x, max, nodeCount);
    if Runs.Runs(s3, rest) {
      Runs.RunStep(s2, k[2], rest);
      Runs.RunStep(s1, k[1], [k[2]] + rest);
      Runs.RunStep(s0, k[0], [k[1]] + ([k[2]] + rest));
      assert k[..3] + rest == [k[0]] + ([k[1]] + ([k[2]] + rest));
    }
  }

  function OneAndArrived(x: Pair, max: nat, nodeCount: nat): State {
    One(x, max, nodeCount).(packets := map[2 := Wait(x, 3).(stage := Arrived), 3 := Wait(x, 4).(stage := Arrived)])
  }

  lemma NextArrivals(x: Pair, max: nat, nodeCount: nat, rest: seq<Step>)
    requires x.Apart() && nodeCount >= 4 && Safe(One(x, max, nodeCount))
    ensures Safe(OneAndArrived(x, max, nodeCount))
    ensures Runs.Runs(OneAndArrived(x, max, nodeCount), rest) ==>
      && Runs.Runs(One(x, max, nodeCount), Race(x)[3..5] + rest)
      && Runs.Final(One(x, max, nodeCount), Race(x)[3..5] + rest) == Runs.Final(OneAndArrived(x, max, nodeCount), rest)
  {
    hide Inv;
    var k := Race(x);
    var s3 := One(x, max, nodeCount);
    var s4 := Next(s3, k[3]);
    var s5 := Next(s4, k[4]);
    assert s5 == OneAndArrived(x, max, nodeCount);
    if Runs.Runs(s5, rest) {
      Runs.RunStep(s4, k[4], rest);
      Runs.RunStep(s3, k[3], [k[4]] + rest);
      assert k[3..5] + rest == [k[3]] + ([k[4]] + rest);
    }
  }

  function OneMissed(x: Pair, max: nat, nodeCount: nat): State {
    One(x, max, nodeCount).(packets := map[2 := Wait(x, 3), 3 := Wait(x, 4).(stage := Arrived)])
  }

  lemma FirstMiss(x: Pair, max: nat, nodeCount: nat, rest: seq<Step>)
    requires x.Apart() && nodeCount >= 4 && Safe(OneAndArrived(x, max, nodeCount))
    ensures Safe(OneMissed(x, max, nodeCount))
    ensures Runs.Runs(OneMissed(x, max, nodeCount), rest) ==>
      && Runs.Runs(OneAndArrived(x, max, nodeCount), Race(x)[5..6] + rest)
      && Runs.Final(OneAndArrived(x, max, nodeCount), Race(x)[5..6] + rest) == Runs.Final(OneMissed(x, max, nodeCount), rest)
  {
    hide Inv;
    var k := Race(x);
    var s5 := OneAndArrived(x, max, nodeCount);
    assert !Matches(s5.entries[x.first], x.b, false);
    DropOne(s5.packets, 2, 3, Wait(x, 4).(stage := Arrived));
    var s6 := Next(s5, k[5]);
    assert s6 == OneMissed(x, max, nodeCount);
    if Runs.Runs(s6, rest) {
      Runs.RunStep(s5, k[5], rest);
      assert k[5..6] + rest == [k[5]] + rest;
    }
  }

  lemma SecondMiss(x: Pair, max: nat, nodeCount: nat, rest: seq<Step>)
    requires x.Apart() && nodeCount >= 4 && Safe(OneMissed(x, max, nodeCount))
    ensures Safe(OneAndWaiting(x, max, nodeCount))
    ensures Runs.Runs(OneAndWaiting(x, max, nodeCount), rest) ==>
      && Runs.Runs(OneMissed(x, max, nodeCount), Race(x)[6..7] + rest)
      && Runs.Final(OneMissed(x, max, nodeCount), Race(x)[6..7] + rest) == Runs.Final(OneAndWaiting(x, max, nodeCount), rest)
  {
    hide Inv;
    var k := Race(x);
    var s6 := OneMissed(x, max, nodeCount);
    assert !Matches(s6.entries[x.first], x.b, false);
    DropOne(s6.packets, 3, 2, Wait(x, 3));
    var s7 := Next(s6, k[6]);
    assert s7 == OneAndWaiting(x, max, nodeCount);
    if Runs.Runs(s7, rest) {
      Runs.RunStep(s6, k[6], rest);
      assert k[6..7] + rest == [k[6]] + rest;
    }
  }

  lemma NextOne(x: Pair, max: nat, nodeCount: nat, rest: seq<Step>)
    requires x.Apart() && nodeCount >= 4 && Safe(OneAndWaiting(x, max, nodeCount))
    ensures Safe(TwoAndWaiting(x, max, nodeCount))
    ensures Runs.Runs(TwoAndWaiting(x, max, nodeCount), rest) ==>
      && Runs.Runs(OneAndWaiting(x, max, nodeCount), Race(x)[7..8] + rest)
      && Runs.Final(OneAndWaiting(x, max, nodeCount), Race(x)[7..8] + rest) == Runs.Final(TwoAndWaiting(x, max, nodeCount), rest)
  {
    hide Inv;
    var k := Race(x);
    var s7 := OneAndWaiting(x, max, nodeCount);
    var s8 := Next(s7, k[7]);
    assert s8 == TwoAndWaiting(x, max, nodeCount);
    if Runs.Runs(s8, rest) {
      Runs.RunStep(s7, k[7], rest);
      assert k[7..8] + rest == [k[7]] + rest;
    }
  }

  function TwoAndData(x: Pair, max: nat, nodeCount: nat): State {
    var s := TwoAndWaiting(x, max, nodeCount);
    s.(entries := s.entries[x.first := NewEntry(1, x.a, 0, 0).(locks := 1)],
       packets := map[3 := Wait(x, 4), 4 := Packet(true, x.a, 50, 6, AtDataFwd(Ticket(x.first, 1, 0)))])
  }

  lemma NextData(x: Pair, max: nat, nodeCount: nat, rest: seq<Step>)
    requires x.Apart() && nodeCount >= 4 && Safe(TwoAndWaiting(x, max, nodeCount))
    ensures Safe(TwoAndData(x, max, nodeCount))
    ensures Runs.Runs(TwoAndData(x, max, nodeCount), rest) ==>
      && Runs.Runs(TwoAndWaiting(x, max, nodeCount), Race(x)[8..10] + rest)
      && Runs.Final(TwoAndWaiting(x, max, nodeCount), Race(x)[8..10] + rest) == Runs.Final(TwoAndData(x, max, nodeCount), rest)
  {
    hide Inv;
    var k := Race(x);
    var s8 := TwoAndWaiting(x, max, nodeCount);
    var s9 := Next(s8, k[8]);
    assert Matches(s9.entries[x.first], x.a, false);
    var s10 := Next(s9, k[9]);
    assert s10 == TwoAndData(x, max, nodeCount);
    if Runs.Runs(s10, rest) {
      Runs.RunStep(s9, k[9], rest);
      Runs.RunStep(s8, k[8], [k[9]] + rest);
      assert k[8..10] + rest == [k[8]] + ([k[9]] + rest);
    }
  }

  lemma DropFirst<T>(m: map<Handle, T>, g: Handle, h: Handle, b: T)
    requires g != h && m.Keys == {g, h} && m[h] == b
    ensures m - {g} == map[h := b]
  {
  }

  lemma DropOne<T>(m: map<nat, T>, x: nat, y: nat, b: T)
    requires x != y && m.Keys == {x, y} && m[y] == b
    ensures m - {x} == map[y := b]
  {
  }

  lemma DataDeletes(x: Pair, max: nat, nodeCount: nat)
    ensures var s := Take(TwoAndData(x, max, nodeCount), 4);
      Deletable(s, x.first) && s.entries[x.first].locks > 0 && PitDelete(s, x.first) == OtherAndWaiting(x, max, nodeCount)
  {
    var all := TwoAndData(x, max, nodeCount);
    DropOne(all.packets, 4, 3, Wait(x, 4));
    var s := Take(all, 4);
    var s1 := Unlock(s, x.first);
    DropFirst(s1.entries, x.first, x.second, NewEntry(2, x.b, 0, 0));
    DropOne(s.nodes, 1, 2, Node(x.second, 70, Pit([3], 2, 100)));
    DropOne(s.faceBuckets, 1, 2, 2);
    DropFirst(s.history.born, x.first, x.second, 1);
    DropFirst(s.history.extra, x.first, x.second, 0);
  }

  lemma NextDelete(x: Pair, max: nat, nodeCount: nat, rest: seq<Step>)
    requires x.Apart() && nodeCount >= 4 && Safe(TwoAndData(x, max, nodeCount))
    ensures Safe(OtherAndWaiting(x, max, nodeCount))
    ensures Runs.Runs(OtherAndWaiting(x, max, nodeCount), rest) ==>
      && Runs.Runs(TwoAndData(x, max, nodeCount), Race(x)[10..11] + rest)
      && Runs.Final(TwoAndData(x, max, nodeCount), Race(x)[10..11] + rest) == Runs.Final(OtherAndWaiting(x, max, nodeCount), rest)
  {
    hide Inv, PitDelete, Deletable;
    DataDeletes(x, max, nodeCount);
    var k := Race(x);
    var s10 := TwoAndData(x, max, nodeCount);
    var s11 := Next(s10, k[10]);
    assert s11 == OtherAndWaiting(x, max, nodeCount);
    if Runs.Runs(s11, rest) {
      Runs.RunStep(s10, k[10], rest);
      assert k[10..11] + rest == [k[10]] + rest;
    }
  }

  lemma LastOne(x: Pair, max: nat, nodeCount: nat)
    requires x.Apart() && nodeCount >= 4 && Safe(OtherAndWaiting(x, max, nodeCount))
    ensures Runs.Runs(OtherAndWaiting(x, max, nodeCount), Race(x)[11..])
    ensures !Unique(Runs.Final(OtherAndWaiting(x, max, nodeCount), Race(x)[11..]).entries)
  {
    hide Inv;
    var k := Race(x);
    var s11 := OtherAndWaiting(x, max, nodeCount);
    var s12 := Next(s11, k[11]);
    assert Runs.Runs(s12, []);
    Runs.RunStep(s11, k[11], []);
    assert k[11..] == [k[11]] + [];
    assert x.first in s12.entries && x.second in s12.entries && s12.entries[x.first].hash == s12.entries[x.second].hash;
  }

  /** A run after which two live entries have one hash. */
  lemma RaceDoubles(x: Pair, max: nat, nodeCount: nat)
    requires x.Apart() && nodeCount >= 4
    ensures Runs.Runs(Runs.Initial(max, nodeCount), Race(x))
    ensures !Unique(Runs.Final(Runs.Initial(max, nodeCount), Race(x)).entries)
  {
    hide Inv, Unique, Runs.Runs, Runs.Final, Safe;
    var k := Race(x);
    FirstThree(x, max, nodeCount, k[3..]);
    NextArrivals(x, max, nodeCount, k[5..]);
    FirstMiss(x, max, nodeCount, k[6..]);
    SecondMiss(x, max, nodeCount, k[7..]);
    NextOne(x, max, nodeCount, k[8..]);
    NextData(x, max, nodeCount, k[10..]);
    NextDelete(x, max, nodeCount, k[11..]);
    LastOne(x, max, nodeCount);
    assert k[10..11] + k[11..] == k[10..] && k[8..10] + k[10..] == k[8..] && k[7..8] + k[8..] == k[7..];
    assert k[6..7] + k[7..] == k[6..] && k[5..6] + k[6..] == k[5..] && k[3..5] + k[5..] == k[3..] && k[..3] + k[3..] == k;
  }

  /** Its places are those that the scan finds, in every table where the hashes share the
      row. */
  lemma RacePlaces(t: HashTable.Tab, sh: Shape, x: Pair, max: nat, nodeCount: nat)
    requires x.Apart() && t.store.rows > 0 && RowIndex(x.a, t.store.rows) == RowIndex(x.b, t.store.rows) == x.row
    ensures HashTable.Good(t, sh, map[]) ==> Scan(t.store, sh, t.Start(x.a), x.a) == Free(x.first)
    ensures HashTable.Good(t, sh, OneAndWaiting(x, max, nodeCount).entries) ==> Scan(t.store, sh, t.Start(x.b), x.b) == Free(x.second)
    ensures HashTable.Good(t, sh, OtherAndWaiting(x, max, nodeCount).entries) ==> Scan(t.store, sh, t.Start(x.b), x.b) == Free(x.first)
  {
    hide HashTable.Good, RowIndex;
    if HashTable.Good(t, sh, map[]) {
      FirstSlotFree(t, sh, map[], x.a);
    }
    if HashTable.Good(t, sh, OneAndWaiting(x, max, nodeCount).entries) {
      SecondSlotFree(t, sh, OneAndWaiting(x, max, nodeCount).entries, x.b);
    }
    if HashTable.Good(t, sh, OtherAndWaiting(x, max, nodeCount).entries) {
      FirstSlotFree(t, sh, OtherAndWaiting(x, max, nodeCount).entries, x.b);
    }
  }

  /** In a table of any size there are such hashes; in one of eight rows, 8 and 16. */
  lemma PairFor(k: nat, rows: nat) returns (x: Pair)
    requires 0 < rows <= Pow2(k)
    ensures x == Pair(0, Pow2(k), 2 * Pow2(k)) && x.Apart() && RowIndex(x.a, rows) == RowIndex(x.b, rows) == x.row
  {
    hide Pow2, RowIndex;
    SameRow(k, rows);
    x := Pair(0, Pow2(k), 2 * Pow2(k));
  }

  lemma EightRows()
    ensures HashTable.RowsFor(128) == 8 && Pair(0, 8, 16).Apart() && RowIndex(8, 8) == RowIndex(16, 8) == 0
  {
    hide RowIndex;
    assert Pow2(1) == 2;
    assert Pow2(2) == 4;
    assert Pow2(3) == 8;
    SameRow(3, 8);
  }
}
