// The per-bucket collision pass of Map.Update (Map.cs): sort the bucket by
// hit class, skip the NoHit prefix, find where each tier starts, and test
// every pair of objects from different tiers.
module Collision {
  import opened Objects

  /** CollisionSort.Compare: the difference of the two hit-class values. */
  function Compare(a: SpaceObject, b: SpaceObject): (r: int)
    ensures r < 0 <==> Rank(a.HitClass) < Rank(b.HitClass)
    ensures r == 0 <==> a.HitClass == b.HitClass
    ensures r > 0 <==> Rank(b.HitClass) < Rank(a.HitClass)
  {
    Rank(a.HitClass) - Rank(b.HitClass)
  }

  /** Compare orders objects consistently: it is transitive. */
  lemma CompareTransitive(a: SpaceObject, b: SpaceObject, c: SpaceObject)
    requires Compare(a, b) <= 0 && Compare(b, c) <= 0
    ensures Compare(a, c) <= 0
  {
  }

  predicate SortedByClass(s: seq<SpaceObject>)
  {
    forall i, j | 0 <= i < j < |s| :: Rank(s[i].HitClass) <= Rank(s[j].HitClass)
  }

  function Insert(x: SpaceObject, s: seq<SpaceObject>): (r: seq<SpaceObject>)
    requires SortedByClass(s)
    ensures SortedByClass(r) && multiset(r) == multiset(s) + multiset{x}
    ensures |r| == |s| + 1
  {
    if s == [] || Compare(x, s[0]) <= 0 then [x] + s
    else
      assert s == [s[0]] + s[1..];
      var rest := Insert(x, s[1..]);
      ConsSorted(s[0], s[1..], x, rest);
      [s[0]] + rest
  }

  /** Putting y in front of a sorted arrangement of s and x, all of whose
      classes are at least y's, keeps it sorted. */
  lemma ConsSorted(y: SpaceObject, s: seq<SpaceObject>, x: SpaceObject, rest: seq<SpaceObject>)
    requires SortedByClass([y] + s) && Rank(y.HitClass) <= Rank(x.HitClass)
    requires SortedByClass(rest) && multiset(rest) == multiset(s) + multiset{x}
    ensures SortedByClass([y] + rest)
  {
    forall k | 0 <= k < |rest|
      ensures Rank(y.HitClass) <= Rank(rest[k].HitClass)
    {
      assert rest[k] in multiset(rest);
      if rest[k] != x {
        assert rest[k] in multiset(s);
        var j :| 0 <= j < |s| && s[j] == rest[k];
        assert ([y] + s)[0] == y && ([y] + s)[j + 1] == s[j];
      }
    }
  }

  /** objs.Sort(CollisionSort.Instance): the bucket ordered by hit class. List.Sort
      may order equal classes any way; this one keeps their order. */
  function SortByClass(s: seq<SpaceObject>): (r: seq<SpaceObject>)
    ensures SortedByClass(r) && multiset(r) == multiset(s)
    ensures |r| == |s|
  {
    if s == [] then []
    else
      assert s == [s[0]] + s[1..];
      Insert(s[0], SortByClass(s[1..]))
  }

  /** The index of the first element above hit-class value `rank`, or |s|. */
  function Boundary(s: seq<SpaceObject>, rank: nat): (k: nat)
    ensures k <= |s|
  {
    if s == [] || Rank(s[0].HitClass) > rank then 0 else 1 + Boundary(s[1..], rank)
  }

  /** Everything before the boundary is at or below `rank`; the element at
      it, if any, is above. */
  lemma {:induction false} BoundaryBounds(s: seq<SpaceObject>, rank: nat)
    ensures forall i | 0 <= i < Boundary(s, rank) :: Rank(s[i].HitClass) <= rank
    ensures Boundary(s, rank) < |s| ==> Rank(s[Boundary(s, rank)].HitClass) > rank
  {
    if s != [] && Rank(s[0].HitClass) <= rank {
      BoundaryBounds(s[1..], rank);
    }
  }

  /** In a sorted sequence, the elements at or below a class value are exactly
      the prefix up to its boundary. */
  lemma BoundarySplits(s: seq<SpaceObject>, rank: nat, i: int)
    requires SortedByClass(s) && 0 <= i < |s|
    ensures i < Boundary(s, rank) <==> Rank(s[i].HitClass) <= rank
  {
    BoundaryBounds(s, rank);
  }

  /** Where index i of a sorted active sequence stands against the tier bounds. */
  lemma ScanAt(act: seq<SpaceObject>, i: int)
    requires SortedByClass(act) && Active(act) && 0 <= i < |act|
    ensures act[i].HitClass == Bullet <==> i < Boundary(act, 1)
    ensures act[i].HitClass == Missile <==> Boundary(act, 1) <= i < Boundary(act, 2)
    ensures act[i].HitClass == Ship <==> Boundary(act, 2) <= i < Boundary(act, 3)
    ensures act[i].HitClass == Planet <==> Boundary(act, 3) <= i
  {
    BoundarySplits(act, 1, i);
    BoundarySplits(act, 2, i);
    BoundarySplits(act, 3, i);
  }

  lemma BoundaryMonotone(s: seq<SpaceObject>, r1: nat, r2: nat)
    requires SortedByClass(s) && r1 <= r2
    ensures Boundary(s, r1) <= Boundary(s, r2)
  {
    var k := Boundary(s, r1);
    if k > Boundary(s, r2) {
      BoundarySplits(s, r2, Boundary(s, r2));
    }
  }

  /** The loop at Map.cs:141-142: the number of NoHit objects at the front. */
  method CountNoHit(objs: seq<SpaceObject>) returns (n: nat)
    ensures n <= |objs|
    ensures forall k | 0 <= k < n :: objs[k].HitClass == NoHit
    ensures n < |objs| ==> objs[n].HitClass != NoHit
    ensures SortedByClass(objs) ==> forall k | n <= k < |objs| :: objs[k].HitClass != NoHit
  {
    n := 0;
    while n < |objs| && objs[n].HitClass == NoHit
      invariant n <= |objs|
      invariant forall k | 0 <= k < n :: objs[k].HitClass == NoHit
    {
      n := n + 1;
    }
  }

  /** The objects that take part in collisions: no NoHit among them. */
  predicate Active(act: seq<SpaceObject>)
  {
    forall k | 0 <= k < |act| :: act[k].HitClass != NoHit
  }

  /** The tier-discovery loop of Map.Update (Map.cs:146-168), scanning the active
      objects from the top. For a sorted active sequence the first missile
      index is the number of bullets, the first ship index the number of
      bullets and missiles, and the first planet index the number of all but
      planets; a tier bound that no tier below reaches is the count itself
      (and planet stays -1 when there is nothing at all). */
  method TierBounds(act: seq<SpaceObject>) returns (missile: int, ship: int, planet: int)
    requires SortedByClass(act) && Active(act)
    ensures missile == if Boundary(act, 2) > 0 then Boundary(act, 1) else |act|
    ensures ship == if Boundary(act, 3) > 0 then Boundary(act, 2) else |act|
    ensures planet == if |act| > 0 then Boundary(act, 3) else -1
  {
    var count := |act|;
    ghost var B, M, S := Boundary(act, 1), Boundary(act, 2), Boundary(act, 3);
    BoundaryMonotone(act, 1, 2);
    BoundaryMonotone(act, 2, 3);
    missile, ship, planet := -1, -1, -1;
    var i := count - 1;
    var done := false;
    while i >= 0 && !done
      invariant -1 <= i < count
      invariant !done ==> planet == (if i + 1 == count then -1 else Max(i + 1, S))
      invariant !done ==> ship == (if i + 1 >= S then -1 else Max(i + 1, M))
      invariant !done ==> missile == (if i + 1 >= M then -1 else Max(i + 1, B))
      invariant done ==> 0 < B && missile == B && ship == M && planet == S
      decreases i + 1, if done then 0 else 1
    {
      ScanAt(act, i);
      match act[i].HitClass {
        case Bullet =>
          if missile == -1 { missile := i + 1; }
          if ship == -1 { ship := i + 1; }
          if planet == -1 { planet := count; }
          done := true;
        case Missile =>
          missile := i;
          if ship == -1 { ship := i + 1; }
          if planet == -1 { planet := count; }
        case Ship =>
          ship := i;
          if planet == -1 { planet := count; }
        case Planet =>
          planet := i;
        case NoHit =>
      }
      if !done {
        i := i - 1;
      }
    }
    if !done {
      if missile == -1 { missile := count; }
      if ship == -1 { ship := count; }
    }
  }

  function Max(a: int, b: int): int { if a < b then b else a }

  /** Whether CheckCollisions(start, end, count) reaches the pair (i, j): it
      returns at once when start == end or end == count, and otherwise pairs
      each index in [start, end) with each index in [end, count). */
  predicate Reaches(start: int, end: int, count: int, i: int, j: int)
  {
    !(start == end || end == count) && start <= i < end && end <= j < count
  }

  function Ind(b: bool): nat { if b then 1 else 0 }

  /** The three CheckCollisions calls of Map.Update reach each pair of active
      objects exactly once when the first is of a lower tier than the second,
      and never otherwise. */
  lemma {:induction false} TiersPairedOnce(act: seq<SpaceObject>, missile: int, ship: int, planet: int, i: int, j: int)
    requires SortedByClass(act) && Active(act)
    requires missile == if Boundary(act, 2) > 0 then Boundary(act, 1) else |act|
    requires ship == if Boundary(act, 3) > 0 then Boundary(act, 2) else |act|
    requires planet == if |act| > 0 then Boundary(act, 3) else -1
    requires 0 <= i < j < |act|
    ensures Ind(Reaches(0, missile, |act|, i, j)) + Ind(Reaches(missile, ship, |act|, i, j))
          + Ind(Reaches(ship, planet, |act|, i, j))
         == Ind(Rank(act[i].HitClass) < Rank(act[j].HitClass))
  {
    BoundaryMonotone(act, 1, 2);
    BoundaryMonotone(act, 2, 3);
    BoundarySplits(act, 1, i);
    BoundarySplits(act, 2, i);
    BoundarySplits(act, 3, i);
    BoundarySplits(act, 1, j);
    BoundarySplits(act, 2, j);
    BoundarySplits(act, 3, j);
  }

  /** What an object's collision and hit logic sees of it. */
  datatype Snapshot = Snapshot(Pos: Point, Angle: real, Flags: ObjFlags, HitClass: HitClass)

  function Snap(o: SpaceObject): Snapshot
    reads o
  {
    Snapshot(o.Pos, o.Angle, o.Flags, o.HitClass)
  }

  /** The part of SpaceObject.Hit the map depends on: whether the hit kills the
      hitting object and whether it kills the one hit. */
  datatype HitEffect = HitEffect(KillsHitter: bool, KillsTarget: bool)

  predicate Live(o: SpaceObject)
    reads o
  {
    !o.Is(Dead)
  }

  /** Live read off the object's snapshot. */
  lemma LiveSnap(o: SpaceObject)
    ensures Live(o) <==> LiveFlags(Snap(o).Flags)
  {
  }

  predicate PairLess(p: (int, int), q: (int, int))
  {
    p.0 < q.0 || (p.0 == q.0 && p.1 < q.1)
  }

  /** Objects of `objs` only ever gain the Dead flag between two states. */
  twostate predicate OnlyKilled(objs: seq<SpaceObject>)
    reads set o | o in objs
  {
    forall o | o in objs ::
      o.Pos == old(o.Pos) && o.Angle == old(o.Angle) &&
      OtherFlags(o.Flags) == OtherFlags(old(o.Flags)) && (old(!Live(o)) ==> !Live(o))
  }

  /** The inner loop of Map.CheckCollisions: the object at index a against
      every object from index end on. Dead objects at index j are skipped;
      the object at a is not looked at again, even once a hit has killed it.
      The states it leaves and the pairs it tests are RowUpTo's, whose
      pairs RowTested and RowFacts describe. */
  method PairWith(objs: seq<SpaceObject>, a: int, end: int,
                  collided: (Snapshot, Snapshot) -> bool,
                  hit: (Snapshot, Snapshot) -> HitEffect)
      returns (ghost tested: seq<(int, int)>)
    requires 0 <= a < end <= |objs|
    requires forall p, q | 0 <= p < q < |objs| :: objs[p] != objs[q]
    modifies (set o | o in objs)`Flags
    ensures var r := RowUpTo(old(SnapsOf(objs)), a, end, |objs|, collided, hit);
      SnapsOf(objs) == r.Snaps && tested == r.Tested
  {
    ghost var s0 := SnapsOf(objs);
    tested := [];
    var j := end;
    while j < |objs|
      invariant end <= j <= |objs|
      invariant Pass(SnapsOf(objs), tested) == RowUpTo(s0, a, end, j, collided, hit)
    {
      tested := RowStep(objs, a, end, j, collided, hit, s0, tested);
      j := j + 1;
    }
    assert s0 == old(SnapsOf(objs));
  }

  /** One turn of the inner loop, taking the run from index j to j + 1. */
  method RowStep(objs: seq<SpaceObject>, a: int, end: int, j: int,
                 collided: (Snapshot, Snapshot) -> bool,
                 hit: (Snapshot, Snapshot) -> HitEffect,
                 ghost s0: seq<Snapshot>, ghost tested: seq<(int, int)>)
      returns (ghost tested': seq<(int, int)>)
    requires 0 <= a < end <= j < |objs| == |s0|
    requires forall p, q | 0 <= p < q < |objs| :: objs[p] != objs[q]
    requires Pass(SnapsOf(objs), tested) == RowUpTo(s0, a, end, j, collided, hit)
    modifies (set o | o in objs)`Flags
    ensures Pass(SnapsOf(objs), tested') == RowUpTo(s0, a, end, j + 1, collided, hit)
  {
    ghost var r := RowUpTo(s0, a, end, j, collided, hit);
    assert SnapsOf(objs) == r.Snaps && tested == r.Tested;
    RowNext(s0, a, end, j, collided, hit);
    var live := Visit(objs, a, j, collided, hit);
    if live {
      tested' := tested + [(a, j)];
      assert SnapsOf(objs) == HitStep(r.Snaps, (a, j), collided, hit);
    } else {
      tested' := tested;
      assert SnapsOf(objs) == r.Snaps;
    }
  }

  /** One step of the inner loop: the object at index j is skipped when dead
      and otherwise tested against the one at a. */
  method Visit(objs: seq<SpaceObject>, a: int, j: int,
               collided: (Snapshot, Snapshot) -> bool,
               hit: (Snapshot, Snapshot) -> HitEffect)
      returns (live: bool)
    requires 0 <= a < |objs| && 0 <= j < |objs| && a != j
    requires forall p, q | 0 <= p < q < |objs| :: objs[p] != objs[q]
    modifies (set o | o in objs)`Flags
    ensures live == LiveFlags(old(SnapsOf(objs))[j].Flags)
    ensures SnapsOf(objs) ==
      if live then HitStep(old(SnapsOf(objs)), (a, j), collided, hit) else old(SnapsOf(objs))
  {
    var y := objs[j];
    LiveSnap(y);
    live := Live(y);
    if live {
      HitAt(objs, a, j, collided, hit);
    }
  }

  /** RowUpTo one object further: a test when that object is live, nothing
      otherwise. */
  lemma RowNext(s: seq<Snapshot>, a: int, end: int, j: int,
                collided: (Snapshot, Snapshot) -> bool,
                hit: (Snapshot, Snapshot) -> HitEffect)
    requires 0 <= a < end <= j < |s|
    ensures LiveFlags(RowUpTo(s, a, end, j, collided, hit).Snaps[j].Flags) ==>
      RowUpTo(s, a, end, j + 1, collided, hit) ==
      Pass(HitStep(RowUpTo(s, a, end, j, collided, hit).Snaps, (a, j), collided, hit),
           RowUpTo(s, a, end, j, collided, hit).Tested + [(a, j)])
    ensures !LiveFlags(RowUpTo(s, a, end, j, collided, hit).Snaps[j].Flags) ==>
      RowUpTo(s, a, end, j + 1, collided, hit) == RowUpTo(s, a, end, j, collided, hit)
  {
  }

  /** One test of the inner loop, on the objects at indices a and j: the
      states it leaves are HitStep's. */
  method HitAt(objs: seq<SpaceObject>, a: int, j: int,
               collided: (Snapshot, Snapshot) -> bool,
               hit: (Snapshot, Snapshot) -> HitEffect)
    requires 0 <= a < |objs| && 0 <= j < |objs| && a != j
    requires forall p, q | 0 <= p < q < |objs| :: objs[p] != objs[q]
    modifies (set o | o in objs)`Flags
    ensures SnapsOf(objs) == HitStep(old(SnapsOf(objs)), (a, j), collided, hit)
  {
    ghost var before := SnapsOf(objs);
    var x, y := objs[a], objs[j];
    assert x != y by {
      if a < j { assert objs[a] != objs[j]; } else { assert objs[j] != objs[a]; }
    }
    HitPair(x, y, collided, hit);
    forall k | 0 <= k < |objs| && k != a && k != j
      ensures SnapsOf(objs)[k] == before[k]
    {
      if k < a { assert objs[k] != x; } else { assert objs[a] != objs[k]; }
      if k < j { assert objs[k] != y; } else { assert objs[j] != objs[k]; }
    }
  }

  /** What the inner loop does, on states: it tests, in increasing order,
      objects from end on that were live before it ran; every object from end
      on that is live after it was tested; and it only kills. */
  lemma RowFacts(s: seq<Snapshot>, a: int, end: int,
                 collided: (Snapshot, Snapshot) -> bool,
                 hit: (Snapshot, Snapshot) -> HitEffect)
    requires 0 <= a < end <= |s|
    ensures Later(s, RowUpTo(s, a, end, |s|, collided, hit).Snaps)
    ensures Increasing(RowUpTo(s, a, end, |s|, collided, hit).Tested)
    ensures forall t | t in RowUpTo(s, a, end, |s|, collided, hit).Tested ::
      t.0 == a && end <= t.1 < |s| && LiveFlags(s[t.1].Flags)
    ensures forall k | end <= k < |s| && LiveFlags(RowUpTo(s, a, end, |s|, collided, hit).Snaps[k].Flags) ::
      (a, k) in RowUpTo(s, a, end, |s|, collided, hit).Tested
  {
    var r := RowUpTo(s, a, end, |s|, collided, hit);
    RowLater(s, a, end, end, |s|, collided, hit);
    RowSorted(s, a, end, |s|, collided, hit);
    RowBounds(s, a, end, |s|, collided, hit);
    forall t | t in r.Tested
      ensures LiveFlags(s[t.1].Flags)
    {
      RowTested(s, a, end, |s|, t.1, collided, hit);
      RowLater(s, a, end, end, t.1, collided, hit);
      assert KilledFrom(s[t.1], RowUpTo(s, a, end, t.1, collided, hit).Snaps[t.1]);
    }
    forall k | end <= k < |s| && LiveFlags(r.Snaps[k].Flags)
      ensures (a, k) in r.Tested
    {
      RowTested(s, a, end, |s|, k, collided, hit);
      RowLater(s, a, end, k, |s|, collided, hit);
      assert KilledFrom(RowUpTo(s, a, end, k, collided, hit).Snaps[k], r.Snaps[k]);
    }
  }

  /** Objects whose states only got Later have only been killed. */
  twostate lemma LaterOnlyKilled(objs: seq<SpaceObject>)
    requires Later(old(SnapsOf(objs)), SnapsOf(objs))
    ensures OnlyKilled(objs)
  {
    forall o | o in objs
      ensures o.Pos == old(o.Pos) && o.Angle == old(o.Angle)
      ensures OtherFlags(o.Flags) == OtherFlags(old(o.Flags)) && (old(!Live(o)) ==> !Live(o))
    {
      var k :| 0 <= k < |objs| && objs[k] == o;
      assert KilledFrom(old(SnapsOf(objs))[k], SnapsOf(objs)[k]);
    }
  }

  /** The flags of an object other than Dead. */
  function OtherFlags(f: ObjFlags): ObjFlags
  {
    f & !Dead
  }

  /** Setting Dead leaves every other flag as it was. */
  lemma KillKeepsFlags(f: ObjFlags)
    ensures OtherFlags(WithFlag(f, Dead, true)) == OtherFlags(f)
    ensures WithFlag(f, Dead, true) & Dead != 0
  {
  }

  /** The body of the inner loop once both objects are known: a.Hit(b) when
      SpaceObject.Collided(a, b). On two different objects, their new states
      are HitOutcome's. */
  method HitPair(x: SpaceObject, y: SpaceObject,
                 collided: (Snapshot, Snapshot) -> bool,
                 hit: (Snapshot, Snapshot) -> HitEffect)
    modifies x`Flags, y`Flags
    ensures x != y ==> (Snap(x), Snap(y)) == HitOutcome(old(Snap(x)), old(Snap(y)), collided, hit)
    ensures x != y && collided(old(Snap(x)), old(Snap(y))) ==>
      (Live(x) <==> old(Live(x)) && !hit(old(Snap(x)), old(Snap(y))).KillsHitter)
    ensures x != y && collided(old(Snap(x)), old(Snap(y))) ==>
      (Live(y) <==> old(Live(y)) && !hit(old(Snap(x)), old(Snap(y))).KillsTarget)
    ensures OtherFlags(x.Flags) == OtherFlags(old(x.Flags)) && (old(!Live(x)) ==> !Live(x))
    ensures OtherFlags(y.Flags) == OtherFlags(old(y.Flags)) && (old(!Live(y)) ==> !Live(y))
    ensures !collided(old(Snap(x)), old(Snap(y))) ==> x.Flags == old(x.Flags) && y.Flags == old(y.Flags)
    ensures collided(old(Snap(x)), old(Snap(y))) && hit(old(Snap(x)), old(Snap(y))).KillsHitter ==> !Live(x)
    ensures collided(old(Snap(x)), old(Snap(y))) && hit(old(Snap(x)), old(Snap(y))).KillsTarget ==> !Live(y)
  {
    if collided(Snap(x), Snap(y)) {
      var e := hit(Snap(x), Snap(y));
      if e.KillsHitter {
        KillKeepsFlags(x.Flags);
        x.Set(Dead, true);
      }
      if e.KillsTarget {
        KillKeepsFlags(y.Flags);
        y.Set(Dead, true);
      }
    }
  }

  /** Map.CheckCollisions over the active objects `objs` (count is |objs|).
      The states it leaves and the pairs it hands to Collided, in order, are
      CheckRef's: CheckTested says which pairs those are, CheckRefFacts that
      each was live when the pass began, that every reached pair still live
      afterwards is among them, and that objects only die. */
  method CheckCollisions(objs: seq<SpaceObject>, start: int, end: int,
                         collided: (Snapshot, Snapshot) -> bool,
                         hit: (Snapshot, Snapshot) -> HitEffect)
      returns (ghost tested: seq<(int, int)>)
    requires 0 <= start && end <= |objs|
    requires forall p, q | 0 <= p < q < |objs| :: objs[p] != objs[q]
    modifies (set o | o in objs)`Flags
    ensures var r := CheckRef(old(SnapsOf(objs)), start, end, collided, hit);
      SnapsOf(objs) == r.Snaps && tested == r.Tested
  {
    ghost var s0 := SnapsOf(objs);
    assert s0 == old(SnapsOf(objs));
    tested := [];
    if start == end || end == |objs| {
      assert CheckRef(s0, start, end, collided, hit) == Pass(s0, []);
      return;
    }
    var a := start;
    while a < end
      invariant start <= a && (a <= end || a == start)
      invariant start < end ==> Pass(SnapsOf(objs), tested) == PassUpTo(s0, start, end, a, collided, hit)
      invariant end < start ==> SnapsOf(objs) == s0 && tested == []
    {
      tested := RowTurn(objs, start, end, a, collided, hit, s0, tested);
      a := a + 1;
    }
    if start < end {
      assert a == end && Pass(SnapsOf(objs), tested) == PassUpTo(s0, start, end, end, collided, hit);
      assert CheckRef(s0, start, end, collided, hit) == PassUpTo(s0, start, end, end, collided, hit);
    } else {
      assert SnapsOf(objs) == s0 && tested == [];
      assert CheckRef(s0, start, end, collided, hit) == Pass(s0, []);
    }
  }

  /** One turn of the outer loop, taking the run from index a to a + 1: a
      dead object at a is skipped, a live one paired by PairWith. */
  method RowTurn(objs: seq<SpaceObject>, start: int, end: int, a: int,
                 collided: (Snapshot, Snapshot) -> bool,
                 hit: (Snapshot, Snapshot) -> HitEffect,
                 ghost s0: seq<Snapshot>, ghost tested: seq<(int, int)>)
      returns (ghost tested': seq<(int, int)>)
    requires 0 <= start <= a < end < |objs| == |s0|
    requires forall p, q | 0 <= p < q < |objs| :: objs[p] != objs[q]
    requires Pass(SnapsOf(objs), tested) == PassUpTo(s0, start, end, a, collided, hit)
    modifies (set o | o in objs)`Flags
    ensures Pass(SnapsOf(objs), tested') == PassUpTo(s0, start, end, a + 1, collided, hit)
  {
    ghost var r := PassUpTo(s0, start, end, a, collided, hit);
    assert SnapsOf(objs) == r.Snaps && tested == r.Tested;
    LiveSnap(objs[a]);
    tested' := tested;
    if Live(objs[a]) {
      ghost var row := PairWith(objs, a, end, collided, hit);
      tested' := tested + row;
    }
  }

  lemma {:induction false} SortedSuffix(s: seq<SpaceObject>, n: nat)
    requires SortedByClass(s) && n <= |s|
    ensures SortedByClass(s[n..])
  {
    forall i, j | 0 <= i < j < |s[n..]|
      ensures Rank(s[n..][i].HitClass) <= Rank(s[n..][j].HitClass)
    {
      assert s[n..][i] == s[n + i] && s[n..][j] == s[n + j];
    }
  }

  /** One bucket's turn in the collision loop of Map.Update (Map.cs:138-172):
      the bucket comes back sorted by hit class, its first `noHit` objects
      are the NoHit ones, and the remaining `active` objects, whose states
      were `before`, are left in the states BucketRef gives, having had the
      pairs `tested` handed to Collided; objects only die. */
  method CollideBucket(objs: seq<SpaceObject>,
                       collided: (Snapshot, Snapshot) -> bool,
                       hit: (Snapshot, Snapshot) -> HitEffect)
      returns (sorted: seq<SpaceObject>, ghost noHit: nat, ghost active: seq<SpaceObject>,
               ghost before: seq<Snapshot>, ghost tested: seq<(int, int)>)
    requires forall p, q | 0 <= p < q < |objs| :: objs[p] != objs[q]
    modifies (set o | o in objs)`Flags
    ensures SortedByClass(sorted) && multiset(sorted) == multiset(objs)
    ensures noHit <= |sorted| && active == sorted[noHit..]
    ensures forall k | 0 <= k < noHit :: sorted[k].HitClass == NoHit
    ensures Active(active)
    ensures forall o | o in active :: o in objs
    ensures |before| == |active| && forall k | 0 <= k < |active| && active[k] in objs :: before[k] == old(Snap(active[k]))
    ensures var r := BucketRef(active, before, collided, hit);
      SnapsOf(active) == r.Snaps && tested == r.Tested
    ensures OnlyKilled(objs)
  {
    var n;
    sorted, n := SplitNoHit(objs);
    noHit := n;
    active := sorted[n..];
    var act := sorted[n..];
    DistinctPerm(sorted, objs);
    before := SnapsOf(act);
    var missile, ship, planet := TierBounds(act);
    tested := CheckTiers(act, missile, ship, planet, collided, hit);
    forall o | o in objs
      ensures o.Pos == old(o.Pos) && o.Angle == old(o.Angle)
      ensures OtherFlags(o.Flags) == OtherFlags(old(o.Flags)) && (old(!Live(o)) ==> !Live(o))
    {
      if o !in act {
        assert o.Flags == old(o.Flags);
      }
    }
  }

  /** A reordering of a sequence without repeats has none either. */
  lemma DistinctPerm<T>(s: seq<T>, t: seq<T>)
    requires multiset(s) == multiset(t)
    requires forall k, j | 0 <= k < j < |t| :: t[k] != t[j]
    ensures forall k, j | 0 <= k < j < |s| :: s[k] != s[j]
  {
    forall k, j | 0 <= k < j < |s|
      ensures s[k] != s[j]
    {
      if s[k] == s[j] {
        assert s == s[..j] + s[j..];
        assert s[k] in s[..j] && s[j] in s[j..];
        assert multiset(s)[s[k]] >= 2 by {
          assert multiset(s) == multiset(s[..j]) + multiset(s[j..]);
        }
        AtMostOnce(t, s[k]);
      }
    }
  }

  /** In a sequence without repeats every value occurs at most once. */
  lemma {:induction false} AtMostOnce<T>(t: seq<T>, x: T)
    requires forall k, j | 0 <= k < j < |t| :: t[k] != t[j]
    ensures multiset(t)[x] <= 1
    decreases |t|
  {
    if t != [] {
      assert t == [t[0]] + t[1..];
      AtMostOnce(t[1..], x);
      if t[0] == x {
        assert x !in t[1..];
      }
    }
  }

  /** The first steps of a bucket's turn (Map.cs:139-142): the bucket sorted
      by hit class, and the number of NoHit objects at its front. */
  method SplitNoHit(objs: seq<SpaceObject>) returns (sorted: seq<SpaceObject>, n: nat)
    ensures SortedByClass(sorted) && multiset(sorted) == multiset(objs)
    ensures n <= |sorted| && SortedByClass(sorted[n..]) && Active(sorted[n..])
    ensures forall k | 0 <= k < n :: sorted[k].HitClass == NoHit
    ensures forall o | o in sorted[n..] :: o in objs
  {
    sorted := SortByClass(objs);
    n := CountNoHit(sorted);
    forall o | o in sorted[n..]
      ensures o in objs
    {
      assert o in multiset(sorted);
    }
    SortedSuffix(sorted, n);
  }

  /** The three CheckCollisions calls of Map.Update (Map.cs:170-172) with the
      tier bounds TierBounds finds: the states they leave and the pairs they
      test are TiersRef's, which TiersRefFacts describes; objects only die. */
  method CheckTiers(act: seq<SpaceObject>, missile: int, ship: int, planet: int,
                    collided: (Snapshot, Snapshot) -> bool,
                    hit: (Snapshot, Snapshot) -> HitEffect)
      returns (ghost tested: seq<(int, int)>)
    requires forall p, q | 0 <= p < q < |act| :: act[p] != act[q]
    requires 0 <= missile <= |act| && 0 <= ship <= |act| && planet <= |act|
    modifies (set o | o in act)`Flags
    ensures var r := TiersRef(old(SnapsOf(act)), missile, ship, planet, collided, hit);
      SnapsOf(act) == r.Snaps && tested == r.Tested
    ensures OnlyKilled(act)
  {
    ghost var s0 := SnapsOf(act);
    ghost var t1, t2, t3 := CheckEachTier(act, missile, ship, planet, collided, hit);
    tested := t1 + t2 + t3;
    TiersLater(s0, missile, ship, planet, collided, hit);
    LaterOnlyKilled(act);
  }

  /** The three calls only kill. */
  lemma TiersLater(s: seq<Snapshot>, missile: int, ship: int, planet: int,
                   collided: (Snapshot, Snapshot) -> bool,
                   hit: (Snapshot, Snapshot) -> HitEffect)
    requires 0 <= missile <= |s| && 0 <= ship <= |s| && planet <= |s|
    ensures Later(s, TiersRef(s, missile, ship, planet, collided, hit).Snaps)
  {
    var r1 := CheckRef(s, 0, missile, collided, hit);
    var r2 := CheckRef(r1.Snaps, missile, ship, collided, hit);
    var r3 := CheckRef(r2.Snaps, ship, planet, collided, hit);
    CheckLater(s, 0, missile, collided, hit);
    CheckLater(r1.Snaps, missile, ship, collided, hit);
    CheckLater(r2.Snaps, ship, planet, collided, hit);
    LaterTrans(s, r1.Snaps, r2.Snaps);
    LaterTrans(s, r2.Snaps, r3.Snaps);
  }

  /** The three CheckCollisions calls of CheckTiers, each from the states the
      one before left. */
  method CheckEachTier(act: seq<SpaceObject>, missile: int, ship: int, planet: int,
                       collided: (Snapshot, Snapshot) -> bool,
                       hit: (Snapshot, Snapshot) -> HitEffect)
      returns (ghost t1: seq<(int, int)>, ghost t2: seq<(int, int)>, ghost t3: seq<(int, int)>)
    requires 0 <= missile <= |act| && 0 <= ship <= |act| && planet <= |act|
    requires forall p, q | 0 <= p < q < |act| :: act[p] != act[q]
    modifies (set o | o in act)`Flags
    ensures var r1 := CheckRef(old(SnapsOf(act)), 0, missile, collided, hit);
      var r2 := CheckRef(r1.Snaps, missile, ship, collided, hit);
      var r3 := CheckRef(r2.Snaps, ship, planet, collided, hit);
      t1 == r1.Tested && t2 == r2.Tested && t3 == r3.Tested && SnapsOf(act) == r3.Snaps
  {
    t1 := CheckCollisions(act, 0, missile, collided, hit);
    t2 := CheckCollisions(act, missile, ship, collided, hit);
    t3 := CheckCollisions(act, ship, planet, collided, hit);
  }

  /** Across the three CheckCollisions calls (with the states after each
      call in s1, s2, s3), every cross-tier pair live at the end was tested. */
  lemma {:induction false} LiveCrossTierTested(act: seq<SpaceObject>, missile: int, ship: int, planet: int,
      t1: seq<(int, int)>, t2: seq<(int, int)>, t3: seq<(int, int)>,
      s1: seq<Snapshot>, s2: seq<Snapshot>, s3: seq<Snapshot>)
    requires SortedByClass(act) && Active(act)
    requires missile == if Boundary(act, 2) > 0 then Boundary(act, 1) else |act|
    requires ship == if Boundary(act, 3) > 0 then Boundary(act, 2) else |act|
    requires planet == if |act| > 0 then Boundary(act, 3) else -1
    requires |s1| == |s2| == |s3| == |act|
    requires forall k | 0 <= k < |act| && LiveFlags(s3[k].Flags) :: LiveFlags(s2[k].Flags)
    requires forall k | 0 <= k < |act| && LiveFlags(s2[k].Flags) :: LiveFlags(s1[k].Flags)
    requires forall i, j | Reaches(0, missile, |act|, i, j) && LiveFlags(s1[i].Flags) && LiveFlags(s1[j].Flags) :: (i, j) in t1
    requires forall i, j | Reaches(missile, ship, |act|, i, j) && LiveFlags(s2[i].Flags) && LiveFlags(s2[j].Flags) :: (i, j) in t2
    requires forall i, j | Reaches(ship, planet, |act|, i, j) && LiveFlags(s3[i].Flags) && LiveFlags(s3[j].Flags) :: (i, j) in t3
    ensures forall i, j | 0 <= i < j < |act| && Rank(act[i].HitClass) < Rank(act[j].HitClass) && LiveFlags(s3[i].Flags) && LiveFlags(s3[j].Flags) ::
      (i, j) in t1 + t2 + t3
  {
    forall i, j | 0 <= i < j < |act| && Rank(act[i].HitClass) < Rank(act[j].HitClass) && LiveFlags(s3[i].Flags) && LiveFlags(s3[j].Flags)
      ensures (i, j) in t1 + t2 + t3
    {
      TiersPairedOnce(act, missile, ship, planet, i, j);
    }
  }

  /** Across the three CheckCollisions calls (with the states before each
      call in s0, s1, s2), every pair tested was live before the first. */
  lemma TestedLiveAtStart(act: seq<SpaceObject>, missile: int, ship: int, planet: int,
                          t1: seq<(int, int)>, t2: seq<(int, int)>, t3: seq<(int, int)>,
                          s0: seq<Snapshot>, s1: seq<Snapshot>, s2: seq<Snapshot>)
    requires 0 <= missile && 0 <= ship && |s0| == |s1| == |s2| == |act|
    requires forall k | 0 <= k < |act| && LiveFlags(s2[k].Flags) :: LiveFlags(s1[k].Flags)
    requires forall k | 0 <= k < |act| && LiveFlags(s1[k].Flags) :: LiveFlags(s0[k].Flags)
    requires forall t | t in t1 :: Reaches(0, missile, |act|, t.0, t.1) && LiveFlags(s0[t.0].Flags) && LiveFlags(s0[t.1].Flags)
    requires forall t | t in t2 :: Reaches(missile, ship, |act|, t.0, t.1) && LiveFlags(s1[t.0].Flags) && LiveFlags(s1[t.1].Flags)
    requires forall t | t in t3 :: Reaches(ship, planet, |act|, t.0, t.1) && LiveFlags(s2[t.0].Flags) && LiveFlags(s2[t.1].Flags)
    ensures forall t | t in t1 + t2 + t3 :: 0 <= t.0 < |act| && 0 <= t.1 < |act| && LiveFlags(s0[t.0].Flags) && LiveFlags(s0[t.1].Flags)
  {
  }

  /** The pairs the three CheckCollisions calls test are cross-tier, lower
      tier first, and no pair comes up twice. */
  lemma {:induction false} TestedAcrossTiers(act: seq<SpaceObject>, missile: int, ship: int, planet: int,
                                             t1: seq<(int, int)>, t2: seq<(int, int)>, t3: seq<(int, int)>)
    requires SortedByClass(act) && Active(act)
    requires missile == if Boundary(act, 2) > 0 then Boundary(act, 1) else |act|
    requires ship == if Boundary(act, 3) > 0 then Boundary(act, 2) else |act|
    requires planet == if |act| > 0 then Boundary(act, 3) else -1
    requires forall t | t in t1 :: Reaches(0, missile, |act|, t.0, t.1)
    requires forall t | t in t2 :: Reaches(missile, ship, |act|, t.0, t.1)
    requires forall t | t in t3 :: Reaches(ship, planet, |act|, t.0, t.1)
    ensures forall t | t in t1 + t2 + t3 ::
      0 <= t.0 < t.1 < |act| && Rank(act[t.0].HitClass) < Rank(act[t.1].HitClass)
  {
    forall t | t in t1 + t2 + t3
      ensures 0 <= t.0 < t.1 < |act| && Rank(act[t.0].HitClass) < Rank(act[t.1].HitClass)
    {
      TiersPairedOnce(act, missile, ship, planet, t.0, t.1);
    }
  }

  /** No pair is tested twice: within a tier the pairs increase, and no pair
      reaches across two tiers. */
  lemma {:induction false} TiersDistinct(act: seq<SpaceObject>, missile: int, ship: int, planet: int,
                                         t1: seq<(int, int)>, t2: seq<(int, int)>, t3: seq<(int, int)>)
    requires SortedByClass(act) && Active(act)
    requires missile == if Boundary(act, 2) > 0 then Boundary(act, 1) else |act|
    requires ship == if Boundary(act, 3) > 0 then Boundary(act, 2) else |act|
    requires planet == if |act| > 0 then Boundary(act, 3) else -1
    requires forall t | t in t1 :: Reaches(0, missile, |act|, t.0, t.1)
    requires forall t | t in t2 :: Reaches(missile, ship, |act|, t.0, t.1)
    requires forall t | t in t3 :: Reaches(ship, planet, |act|, t.0, t.1)
    requires forall p, q | 0 <= p < q < |t1| :: PairLess(t1[p], t1[q])
    requires forall p, q | 0 <= p < q < |t2| :: PairLess(t2[p], t2[q])
    requires forall p, q | 0 <= p < q < |t3| :: PairLess(t3[p], t3[q])
    ensures forall p, q | 0 <= p < q < |t1 + t2 + t3| :: (t1 + t2 + t3)[p] != (t1 + t2 + t3)[q]
  {
    var tested := t1 + t2 + t3;
    forall p, q | 0 <= p < q < |tested| ensures tested[p] != tested[q]
    {
      var n1, n2 := |t1|, |t1| + |t2|;
      if q < n1 {
        assert tested[p] == t1[p] && tested[q] == t1[q];
        assert PairLess(t1[p], t1[q]);
      } else if p >= n2 {
        assert tested[p] == t3[p - n2] && tested[q] == t3[q - n2];
        assert PairLess(t3[p - n2], t3[q - n2]);
      } else if p >= n1 && q < n2 {
        assert tested[p] == t2[p - n1] && tested[q] == t2[q - n1];
        assert PairLess(t2[p - n1], t2[q - n1]);
      } else {
        var u := tested[p];
        if p < n1 {
          assert u == t1[p] && u in t1;
          if q < n2 { assert tested[q] == t2[q - n1] && tested[q] in t2; } else { assert tested[q] == t3[q - n2] && tested[q] in t3; }
        } else {
          assert u == t2[p - n1] && u in t2;
          assert tested[q] == t3[q - n2] && tested[q] in t3;
        }
        TiersPairedOnce(act, missile, ship, planet, u.0, u.1);
      }
    }
  }

  // The collision pass on snapshots: what Map.CheckCollisions does to the
  // objects' states, as a function of the states it starts from.

  /** Whether a flag word leaves the object live. */
  predicate LiveFlags(f: ObjFlags)
  {
    f & Dead == 0
  }

  /** State b is state a, except that the object may have been killed; no
      flag but Dead changes. */
  predicate KilledFrom(a: Snapshot, b: Snapshot)
  {
    && b.Pos == a.Pos && b.Angle == a.Angle && b.HitClass == a.HitClass
    && OtherFlags(b.Flags) == OtherFlags(a.Flags) && (!LiveFlags(a.Flags) ==> !LiveFlags(b.Flags))
  }

  /** Each state of s2 is the state at the same index of s1, or that state
      killed. */
  predicate Later(s1: seq<Snapshot>, s2: seq<Snapshot>)
  {
    |s1| == |s2| && forall k | 0 <= k < |s1| :: KilledFrom(s1[k], s2[k])
  }

  lemma LaterTrans(s1: seq<Snapshot>, s2: seq<Snapshot>, s3: seq<Snapshot>)
    requires Later(s1, s2) && Later(s2, s3)
    ensures Later(s1, s3)
  {
    forall k | 0 <= k < |s1|
      ensures KilledFrom(s1[k], s3[k])
    {
      assert KilledFrom(s1[k], s2[k]) && KilledFrom(s2[k], s3[k]);
    }
  }

  /** The states of a sequence of objects. */
  function SnapsOf(objs: seq<SpaceObject>): (s: seq<Snapshot>)
    reads set o | o in objs
    ensures |s| == |objs| && forall k | 0 <= k < |objs| :: s[k] == Snap(objs[k])
  {
    if objs == [] then [] else [Snap(objs[0])] + SnapsOf(objs[1..])
  }

  /** The state with Dead set, as SpaceObject.Set(ObjFlag.Dead, true) leaves it. */
  function Killed(s: Snapshot): (r: Snapshot)
    ensures KilledFrom(s, r) && !LiveFlags(r.Flags)
  {
    KillKeepsFlags(s.Flags);
    s.(Flags := WithFlag(s.Flags, Dead, true))
  }

  /** `if(SpaceObject.Collided(a, b)) a.Hit(b);` (Map.cs:222) on the states of
      the two objects: nothing happens unless they collided, and then the
      hit kills the hitter, the target, both or neither, as its effect says. */
  function HitOutcome(a: Snapshot, b: Snapshot,
                      collided: (Snapshot, Snapshot) -> bool,
                      hit: (Snapshot, Snapshot) -> HitEffect): (r: (Snapshot, Snapshot))
    ensures KilledFrom(a, r.0) && KilledFrom(b, r.1)
    ensures !collided(a, b) ==> r == (a, b)
    ensures collided(a, b) ==> (LiveFlags(r.0.Flags) <==> LiveFlags(a.Flags) && !hit(a, b).KillsHitter)
    ensures collided(a, b) ==> (LiveFlags(r.1.Flags) <==> LiveFlags(b.Flags) && !hit(a, b).KillsTarget)
  {
    if collided(a, b) then
      var e := hit(a, b);
      (if e.KillsHitter then Killed(a) else a, if e.KillsTarget then Killed(b) else b)
    else (a, b)
  }

  /** Each pair holds two different indices of a sequence of n states. */
  predicate PairsIn(ts: seq<(int, int)>, n: int)
  {
    forall t | t in ts :: 0 <= t.0 < n && 0 <= t.1 < n && t.0 != t.1
  }

  /** The states after the pair t of s has been handed to HitOutcome; every
      other state is as it was. */
  function HitStep(s: seq<Snapshot>, t: (int, int),
                   collided: (Snapshot, Snapshot) -> bool,
                   hit: (Snapshot, Snapshot) -> HitEffect): (r: seq<Snapshot>)
    requires 0 <= t.0 < |s| && 0 <= t.1 < |s| && t.0 != t.1
    ensures |r| == |s|
  {
    var o := HitOutcome(s[t.0], s[t.1], collided, hit);
    s[t.0 := o.0][t.1 := o.1]
  }

  /** HitStep only kills, and only at the two ends of its pair. */
  lemma HitStepLater(s: seq<Snapshot>, t: (int, int),
                     collided: (Snapshot, Snapshot) -> bool,
                     hit: (Snapshot, Snapshot) -> HitEffect)
    requires 0 <= t.0 < |s| && 0 <= t.1 < |s| && t.0 != t.1
    ensures Later(s, HitStep(s, t, collided, hit))
    ensures forall k | 0 <= k < |s| && k != t.0 && k != t.1 :: HitStep(s, t, collided, hit)[k] == s[k]
  {
  }

  /** The states after the pairs ts have been handed, in order, to HitStep. */
  function Apply(s: seq<Snapshot>, ts: seq<(int, int)>,
                 collided: (Snapshot, Snapshot) -> bool,
                 hit: (Snapshot, Snapshot) -> HitEffect): (r: seq<Snapshot>)
    requires PairsIn(ts, |s|)
    ensures |r| == |s|
    decreases |ts|
  {
    if ts == [] then s
    else HitStep(Apply(s, ts[..|ts| - 1], collided, hit), ts[|ts| - 1], collided, hit)
  }

  /** How far a run of the collision pass has got: the states so far, and
      the pairs handed to Collided so far, in order. */
  datatype Pass = Pass(Snaps: seq<Snapshot>, Tested: seq<(int, int)>)

  /** The inner loop of Map.CheckCollisions (Map.cs:219-223) on states, run
      up to index j: the object at a against each object from end to j - 1
      that is live when the loop reaches it. */
  function RowUpTo(s: seq<Snapshot>, a: int, end: int, j: int,
                   collided: (Snapshot, Snapshot) -> bool,
                   hit: (Snapshot, Snapshot) -> HitEffect): (r: Pass)
    requires 0 <= a < end <= j <= |s|
    ensures |r.Snaps| == |s|
    decreases j
  {
    if j == end then Pass(s, [])
    else
      var r := RowUpTo(s, a, end, j - 1, collided, hit);
      if LiveFlags(r.Snaps[j - 1].Flags) then
        Pass(HitStep(r.Snaps, (a, j - 1), collided, hit), r.Tested + [(a, j - 1)])
      else r
  }

  /** The outer loop of Map.CheckCollisions (Map.cs:215-224) on states, run
      up to index a: each object from start to a - 1 that is live when its
      turn comes, paired by RowUpTo with the objects from end on. */
  function PassUpTo(s: seq<Snapshot>, start: int, end: int, a: int,
                    collided: (Snapshot, Snapshot) -> bool,
                    hit: (Snapshot, Snapshot) -> HitEffect): (r: Pass)
    requires 0 <= start <= a <= end <= |s|
    ensures |r.Snaps| == |s|
    decreases a
  {
    if a == start then Pass(s, [])
    else
      var r := PassUpTo(s, start, end, a - 1, collided, hit);
      if LiveFlags(r.Snaps[a - 1].Flags) then
        var row := RowUpTo(r.Snaps, a - 1, end, |s|, collided, hit);
        Pass(row.Snaps, r.Tested + row.Tested)
      else r
  }

  /** The inner loop pairs a only with objects from end to j - 1. */
  lemma {:induction false} RowBounds(s: seq<Snapshot>, a: int, end: int, j: int,
                                     collided: (Snapshot, Snapshot) -> bool,
                                     hit: (Snapshot, Snapshot) -> HitEffect)
    requires 0 <= a < end <= j <= |s|
    ensures forall t | t in RowUpTo(s, a, end, j, collided, hit).Tested :: t.0 == a && end <= t.1 < j
    decreases j
  {
    if j > end {
      RowBounds(s, a, end, j - 1, collided, hit);
    }
  }

  /** The outer loop pairs objects from start to a - 1 with objects from end
      on. */
  lemma {:induction false} PassBounds(s: seq<Snapshot>, start: int, end: int, a: int,
                                      collided: (Snapshot, Snapshot) -> bool,
                                      hit: (Snapshot, Snapshot) -> HitEffect)
    requires 0 <= start <= a <= end <= |s|
    ensures forall t | t in PassUpTo(s, start, end, a, collided, hit).Tested :: start <= t.0 < a && end <= t.1 < |s|
    decreases a
  {
    if a > start {
      PassBounds(s, start, end, a - 1, collided, hit);
      var r := PassUpTo(s, start, end, a - 1, collided, hit);
      if LiveFlags(r.Snaps[a - 1].Flags) {
        RowBounds(r.Snaps, a - 1, end, |s|, collided, hit);
      }
    }
  }

  /** A row for an index past every first index so far, appended to pairs in
      increasing order, keeps them in increasing order. */
  lemma RowAfter(before: seq<(int, int)>, a: int, row: seq<(int, int)>)
    requires forall p, q | 0 <= p < q < |before| :: PairLess(before[p], before[q])
    requires forall t | t in before :: t.0 < a
    requires forall t | t in row :: t.0 == a
    requires forall p, q | 0 <= p < q < |row| :: row[p].1 < row[q].1
    ensures forall p, q | 0 <= p < q < |before + row| :: PairLess((before + row)[p], (before + row)[q])
  {
    forall p, q | 0 <= p < q < |before + row|
      ensures PairLess((before + row)[p], (before + row)[q])
    {
      if q < |before| {
      } else if p < |before| {
        assert before[p] in before && row[q - |before|] in row;
      } else {
        assert row[p - |before|] in row && row[q - |before|] in row;
      }
    }
  }

  /** The second indices of the pairs increase. */
  predicate Increasing(ts: seq<(int, int)>)
  {
    forall p, q | 0 <= p < q < |ts| :: ts[p].1 < ts[q].1
  }

  /** The pairs are in increasing order. */
  predicate PairsSorted(ts: seq<(int, int)>)
  {
    forall p, q | 0 <= p < q < |ts| :: PairLess(ts[p], ts[q])
  }

  /** The inner loop tests the objects after `end` in increasing order. */
  lemma {:induction false} RowSorted(s: seq<Snapshot>, a: int, end: int, j: int,
                                     collided: (Snapshot, Snapshot) -> bool,
                                     hit: (Snapshot, Snapshot) -> HitEffect)
    requires 0 <= a < end <= j <= |s|
    ensures Increasing(RowUpTo(s, a, end, j, collided, hit).Tested)
    decreases j
  {
    if j > end {
      RowSorted(s, a, end, j - 1, collided, hit);
      RowBounds(s, a, end, j - 1, collided, hit);
      var r := RowUpTo(s, a, end, j - 1, collided, hit);
      if LiveFlags(r.Snaps[j - 1].Flags) {
        var ts := r.Tested + [(a, j - 1)];
        assert RowUpTo(s, a, end, j, collided, hit).Tested == ts;
        forall p, q | 0 <= p < q < |ts|
          ensures ts[p].1 < ts[q].1
        {
          assert ts[p] == r.Tested[p] && r.Tested[p] in r.Tested;
          if q < |r.Tested| {
            assert ts[q] == r.Tested[q];
          }
        }
      }
    }
  }

  /** The outer loop tests its pairs in increasing order. */
  lemma {:induction false} PassSorted(s: seq<Snapshot>, start: int, end: int, a: int,
                                      collided: (Snapshot, Snapshot) -> bool,
                                      hit: (Snapshot, Snapshot) -> HitEffect)
    requires 0 <= start <= a <= end <= |s|
    ensures PairsSorted(PassUpTo(s, start, end, a, collided, hit).Tested)
    decreases a
  {
    if a > start {
      PassSorted(s, start, end, a - 1, collided, hit);
      var r := PassUpTo(s, start, end, a - 1, collided, hit);
      if LiveFlags(r.Snaps[a - 1].Flags) {
        var row := RowUpTo(r.Snaps, a - 1, end, |s|, collided, hit);
        RowSorted(r.Snaps, a - 1, end, |s|, collided, hit);
        PassBounds(s, start, end, a - 1, collided, hit);
        RowBounds(r.Snaps, a - 1, end, |s|, collided, hit);
        RowAfter(r.Tested, a - 1, row.Tested);
        assert PassUpTo(s, start, end, a, collided, hit).Tested == r.Tested + row.Tested;
      }
    }
  }

  /** Map.CheckCollisions(start, end) on states: nothing happens when start
      == end or end == count, nor when start > end (the loop does not run);
      otherwise the outer loop runs to end. */
  function CheckRef(s: seq<Snapshot>, start: int, end: int,
                    collided: (Snapshot, Snapshot) -> bool,
                    hit: (Snapshot, Snapshot) -> HitEffect): (r: Pass)
    requires 0 <= start && end <= |s|
    ensures |r.Snaps| == |s|
  {
    if start == end || end == |s| then Pass(s, [])
    else if end < start then Pass(s, [])
    else PassUpTo(s, start, end, end, collided, hit)
  }

  /** The three CheckCollisions calls of Map.Update (Map.cs:170-172) on
      states, each starting from the states the one before left. */
  function TiersRef(s: seq<Snapshot>, missile: int, ship: int, planet: int,
                    collided: (Snapshot, Snapshot) -> bool,
                    hit: (Snapshot, Snapshot) -> HitEffect): (r: Pass)
    requires 0 <= missile <= |s| && 0 <= ship <= |s| && planet <= |s|
    ensures |r.Snaps| == |s|
  {
    var r1 := CheckRef(s, 0, missile, collided, hit);
    var r2 := CheckRef(r1.Snaps, missile, ship, collided, hit);
    var r3 := CheckRef(r2.Snaps, ship, planet, collided, hit);
    Pass(r3.Snaps, r1.Tested + r2.Tested + r3.Tested)
  }

  /** One bucket's collision test on states: the active objects `act`, in
      states s, with the tier bounds TierBounds finds for them. */
  function BucketRef(act: seq<SpaceObject>, s: seq<Snapshot>,
                     collided: (Snapshot, Snapshot) -> bool,
                     hit: (Snapshot, Snapshot) -> HitEffect): (r: Pass)
    requires |s| == |act|
    ensures |r.Snaps| == |s|
  {
    TiersRef(s, if Boundary(act, 2) > 0 then Boundary(act, 1) else |act|,
             if Boundary(act, 3) > 0 then Boundary(act, 2) else |act|,
             if |act| > 0 then Boundary(act, 3) else -1, collided, hit)
  }

  /** Handing t1 and then t2 to HitStep is handing t1 + t2. */
  lemma {:induction false} ApplyAppend(s: seq<Snapshot>, t1: seq<(int, int)>, t2: seq<(int, int)>,
                                       collided: (Snapshot, Snapshot) -> bool,
                                       hit: (Snapshot, Snapshot) -> HitEffect)
    requires PairsIn(t1, |s|) && PairsIn(t2, |s|)
    ensures PairsIn(t1 + t2, |s|)
    ensures Apply(s, t1 + t2, collided, hit) == Apply(Apply(s, t1, collided, hit), t2, collided, hit)
    decreases |t2|
  {
    if t2 == [] {
      assert t1 + t2 == t1;
    } else {
      var init := t2[..|t2| - 1];
      assert (t1 + t2)[..|t1 + t2| - 1] == t1 + init;
      ApplyAppend(s, t1, init, collided, hit);
    }
  }

  /** RowUpTo's states are its pairs handed, in order, to HitStep. */
  lemma {:induction false} RowApplied(s: seq<Snapshot>, a: int, end: int, j: int,
                                      collided: (Snapshot, Snapshot) -> bool,
                                      hit: (Snapshot, Snapshot) -> HitEffect)
    requires 0 <= a < end <= j <= |s|
    ensures PairsIn(RowUpTo(s, a, end, j, collided, hit).Tested, |s|)
    ensures RowUpTo(s, a, end, j, collided, hit).Snaps
         == Apply(s, RowUpTo(s, a, end, j, collided, hit).Tested, collided, hit)
    decreases j
  {
    var r := RowUpTo(s, a, end, j, collided, hit);
    if j > end {
      RowApplied(s, a, end, j - 1, collided, hit);
      var r' := RowUpTo(s, a, end, j - 1, collided, hit);
      if LiveFlags(r'.Snaps[j - 1].Flags) {
        var ts := r'.Tested + [(a, j - 1)];
        forall t | t in ts
          ensures 0 <= t.0 < |s| && 0 <= t.1 < |s| && t.0 != t.1
        {
          if t !in r'.Tested {
            assert t == (a, j - 1);
          }
        }
        assert ts[..|ts| - 1] == r'.Tested;
        assert r == Pass(HitStep(r'.Snaps, (a, j - 1), collided, hit), ts);
        assert Apply(s, ts, collided, hit) == HitStep(Apply(s, r'.Tested, collided, hit), (a, j - 1), collided, hit);
        assert r.Snaps == Apply(s, r.Tested, collided, hit);
      } else {
        assert r == r';
        assert r.Snaps == Apply(s, r.Tested, collided, hit);
      }
    } else {
      assert r == Pass(s, []);
      assert r.Snaps == Apply(s, r.Tested, collided, hit);
    }
  }

  /** PassUpTo's states are its pairs handed, in order, to HitStep. */
  lemma {:induction false} PassApplied(s: seq<Snapshot>, start: int, end: int, a: int,
                                       collided: (Snapshot, Snapshot) -> bool,
                                       hit: (Snapshot, Snapshot) -> HitEffect)
    requires 0 <= start <= a <= end <= |s|
    ensures PairsIn(PassUpTo(s, start, end, a, collided, hit).Tested, |s|)
    ensures PassUpTo(s, start, end, a, collided, hit).Snaps
         == Apply(s, PassUpTo(s, start, end, a, collided, hit).Tested, collided, hit)
    decreases a
  {
    var r := PassUpTo(s, start, end, a, collided, hit);
    if a > start {
      PassApplied(s, start, end, a - 1, collided, hit);
      var r' := PassUpTo(s, start, end, a - 1, collided, hit);
      if LiveFlags(r'.Snaps[a - 1].Flags) {
        var row := RowUpTo(r'.Snaps, a - 1, end, |s|, collided, hit);
        assert r == Pass(row.Snaps, r'.Tested + row.Tested);
        RowApplied(r'.Snaps, a - 1, end, |s|, collided, hit);
        ApplyAppend(s, r'.Tested, row.Tested, collided, hit);
        assert r.Snaps == Apply(s, r.Tested, collided, hit);
      } else {
        assert r == r';
      }
    } else {
      assert r == Pass(s, []);
    }
  }

  /** The object at a is tested against the one at jj exactly when jj is
      below j and that object is live when the inner loop reaches it. */
  lemma {:induction false} RowTested(s: seq<Snapshot>, a: int, end: int, j: int, jj: int,
                                     collided: (Snapshot, Snapshot) -> bool,
                                     hit: (Snapshot, Snapshot) -> HitEffect)
    requires 0 <= a < end <= j <= |s|
    ensures (a, jj) in RowUpTo(s, a, end, j, collided, hit).Tested <==>
      end <= jj < j && LiveFlags(RowUpTo(s, a, end, jj, collided, hit).Snaps[jj].Flags)
    decreases j
  {
    if j > end {
      RowTested(s, a, end, j - 1, jj, collided, hit);
      if jj == j - 1 {
        assert (a, jj) !in RowUpTo(s, a, end, j - 1, collided, hit).Tested;
      }
    }
  }

  /** Later rounds of the inner loop only kill. */
  lemma {:induction false} RowLater(s: seq<Snapshot>, a: int, end: int, j1: int, j2: int,
                                    collided: (Snapshot, Snapshot) -> bool,
                                    hit: (Snapshot, Snapshot) -> HitEffect)
    requires 0 <= a < end <= j1 <= j2 <= |s|
    ensures Later(RowUpTo(s, a, end, j1, collided, hit).Snaps, RowUpTo(s, a, end, j2, collided, hit).Snaps)
    decreases j2
  {
    var r1 := RowUpTo(s, a, end, j1, collided, hit).Snaps;
    if j2 == j1 {
      assert forall k | 0 <= k < |r1| :: KilledFrom(r1[k], r1[k]);
    } else {
      RowLater(s, a, end, j1, j2 - 1, collided, hit);
      var r := RowUpTo(s, a, end, j2 - 1, collided, hit).Snaps;
      if LiveFlags(r[j2 - 1].Flags) {
        HitStepLater(r, (a, j2 - 1), collided, hit);
      } else {
        assert forall k | 0 <= k < |r| :: KilledFrom(r[k], r[k]);
      }
      LaterTrans(r1, r, RowUpTo(s, a, end, j2, collided, hit).Snaps);
    }
  }

  /** Later rounds of the outer loop only kill. */
  lemma {:induction false} PassLater(s: seq<Snapshot>, start: int, end: int, a1: int, a2: int,
                                     collided: (Snapshot, Snapshot) -> bool,
                                     hit: (Snapshot, Snapshot) -> HitEffect)
    requires 0 <= start <= a1 <= a2 <= end <= |s|
    ensures Later(PassUpTo(s, start, end, a1, collided, hit).Snaps, PassUpTo(s, start, end, a2, collided, hit).Snaps)
    decreases a2
  {
    var r1 := PassUpTo(s, start, end, a1, collided, hit).Snaps;
    if a2 == a1 {
      assert forall k | 0 <= k < |r1| :: KilledFrom(r1[k], r1[k]);
    } else {
      PassLater(s, start, end, a1, a2 - 1, collided, hit);
      var r := PassUpTo(s, start, end, a2 - 1, collided, hit);
      if LiveFlags(r.Snaps[a2 - 1].Flags) {
        RowLater(r.Snaps, a2 - 1, end, end, |s|, collided, hit);
      } else {
        assert forall k | 0 <= k < |r.Snaps| :: KilledFrom(r.Snaps[k], r.Snaps[k]);
      }
      LaterTrans(r1, r.Snaps, PassUpTo(s, start, end, a2, collided, hit).Snaps);
    }
  }

  /** The pair (i, j) is among the outer loop's pairs up to a exactly when i
      is below a, the object at i is live when its turn comes, and its row
      tests j. */
  lemma {:induction false} PassTested(s: seq<Snapshot>, start: int, end: int, a: int, i: int, j: int,
                                      collided: (Snapshot, Snapshot) -> bool,
                                      hit: (Snapshot, Snapshot) -> HitEffect)
    requires 0 <= start <= a <= end <= |s|
    ensures (i, j) in PassUpTo(s, start, end, a, collided, hit).Tested <==>
      && start <= i < a
      && LiveFlags(PassUpTo(s, start, end, i, collided, hit).Snaps[i].Flags)
      && (i, j) in RowUpTo(PassUpTo(s, start, end, i, collided, hit).Snaps, i, end, |s|, collided, hit).Tested
    decreases a
  {
    if a > start {
      PassTested(s, start, end, a - 1, i, j, collided, hit);
      var r := PassUpTo(s, start, end, a - 1, collided, hit);
      if i == a - 1 {
        PassBounds(s, start, end, a - 1, collided, hit);
        assert (i, j) !in r.Tested;
      } else if LiveFlags(r.Snaps[a - 1].Flags) {
        RowBounds(r.Snaps, a - 1, end, |s|, collided, hit);
      }
    }
  }

  /** Map.CheckCollisions hands the pair (i, j) to Collided exactly when it
      reaches the pair, the object at i is live when its row starts, and the
      object at j is live when the row gets to it. */
  lemma CheckTested(s: seq<Snapshot>, start: int, end: int, i: int, j: int,
                    collided: (Snapshot, Snapshot) -> bool,
                    hit: (Snapshot, Snapshot) -> HitEffect)
    requires 0 <= start && end <= |s|
    ensures (i, j) in CheckRef(s, start, end, collided, hit).Tested <==>
      && Reaches(start, end, |s|, i, j)
      && LiveFlags(PassUpTo(s, start, end, i, collided, hit).Snaps[i].Flags)
      && LiveFlags(RowUpTo(PassUpTo(s, start, end, i, collided, hit).Snaps, i, end, j, collided, hit).Snaps[j].Flags)
  {
    if start < end < |s| {
      PassTested(s, start, end, end, i, j, collided, hit);
      if start <= i < end {
        RowTested(PassUpTo(s, start, end, i, collided, hit).Snaps, i, end, |s|, j, collided, hit);
      }
    }
  }

  /** What Map.CheckCollisions does, on states: its pairs are pairs it
      reaches, in increasing order, whose objects were live when it began;
      every pair it reaches whose objects are live when it ends is among
      them; and it only kills. */
  lemma CheckRefFacts(s: seq<Snapshot>, start: int, end: int,
                      collided: (Snapshot, Snapshot) -> bool,
                      hit: (Snapshot, Snapshot) -> HitEffect)
    requires 0 <= start && end <= |s|
    ensures var r := CheckRef(s, start, end, collided, hit);
      && Later(s, r.Snaps)
      && (forall k | 0 <= k < |s| && LiveFlags(r.Snaps[k].Flags) :: LiveFlags(s[k].Flags))
      && (forall t | t in r.Tested ::
            Reaches(start, end, |s|, t.0, t.1) && LiveFlags(s[t.0].Flags) && LiveFlags(s[t.1].Flags))
      && (forall i, j | Reaches(start, end, |s|, i, j) && LiveFlags(r.Snaps[i].Flags) && LiveFlags(r.Snaps[j].Flags) ::
            (i, j) in r.Tested)
      && PairsSorted(r.Tested)
  {
    CheckLater(s, start, end, collided, hit);
    CheckTestedLive(s, start, end, collided, hit);
    CheckAllTested(s, start, end, collided, hit);
    CheckSorted(s, start, end, collided, hit);
  }

  /** Every pair Map.CheckCollisions tests is one it reaches, with both
      objects live when it began. */
  lemma CheckTestedLive(s: seq<Snapshot>, start: int, end: int,
                        collided: (Snapshot, Snapshot) -> bool,
                        hit: (Snapshot, Snapshot) -> HitEffect)
    requires 0 <= start && end <= |s|
    ensures forall t | t in CheckRef(s, start, end, collided, hit).Tested ::
      Reaches(start, end, |s|, t.0, t.1) && LiveFlags(s[t.0].Flags) && LiveFlags(s[t.1].Flags)
  {
    var r := CheckRef(s, start, end, collided, hit);
    forall t | t in r.Tested
      ensures Reaches(start, end, |s|, t.0, t.1) && LiveFlags(s[t.0].Flags) && LiveFlags(s[t.1].Flags)
    {
      CheckTested(s, start, end, t.0, t.1, collided, hit);
      var before := PassUpTo(s, start, end, t.0, collided, hit).Snaps;
      var reached := RowUpTo(before, t.0, end, t.1, collided, hit).Snaps;
      PassLater(s, start, end, start, t.0, collided, hit);
      RowLater(before, t.0, end, end, t.1, collided, hit);
      LaterTrans(s, before, reached);
      assert KilledFrom(s[t.0], before[t.0]) && KilledFrom(s[t.1], reached[t.1]);
    }
  }

  /** Every pair Map.CheckCollisions reaches whose objects are live when it
      ends was tested. */
  lemma CheckAllTested(s: seq<Snapshot>, start: int, end: int,
                       collided: (Snapshot, Snapshot) -> bool,
                       hit: (Snapshot, Snapshot) -> HitEffect)
    requires 0 <= start && end <= |s|
    ensures var r := CheckRef(s, start, end, collided, hit);
      forall i, j | Reaches(start, end, |s|, i, j) && LiveFlags(r.Snaps[i].Flags) && LiveFlags(r.Snaps[j].Flags) ::
        (i, j) in r.Tested
  {
    var r := CheckRef(s, start, end, collided, hit);
    forall i, j | Reaches(start, end, |s|, i, j) && LiveFlags(r.Snaps[i].Flags) && LiveFlags(r.Snaps[j].Flags)
      ensures (i, j) in r.Tested
    {
      CheckTested(s, start, end, i, j, collided, hit);
      var before := PassUpTo(s, start, end, i, collided, hit).Snaps;
      var next := PassUpTo(s, start, end, i + 1, collided, hit).Snaps;
      PassLater(s, start, end, i + 1, end, collided, hit);
      assert KilledFrom(next[i], r.Snaps[i]);
      assert LiveFlags(before[i].Flags);
      var row := RowUpTo(before, i, end, |s|, collided, hit);
      RowLater(before, i, end, j, |s|, collided, hit);
      LaterTrans(RowUpTo(before, i, end, j, collided, hit).Snaps, row.Snaps, r.Snaps);
      assert KilledFrom(RowUpTo(before, i, end, j, collided, hit).Snaps[j], r.Snaps[j]);
    }
  }

  /** Every pair Map.CheckCollisions tests is one it reaches. */
  lemma CheckReaches(s: seq<Snapshot>, start: int, end: int,
                     collided: (Snapshot, Snapshot) -> bool,
                     hit: (Snapshot, Snapshot) -> HitEffect)
    requires 0 <= start && end <= |s|
    ensures forall t | t in CheckRef(s, start, end, collided, hit).Tested :: Reaches(start, end, |s|, t.0, t.1)
  {
    if start < end < |s| {
      PassBounds(s, start, end, end, collided, hit);
    }
  }

  /** Map.CheckCollisions tests its pairs in increasing order. */
  lemma CheckSorted(s: seq<Snapshot>, start: int, end: int,
                    collided: (Snapshot, Snapshot) -> bool,
                    hit: (Snapshot, Snapshot) -> HitEffect)
    requires 0 <= start && end <= |s|
    ensures PairsSorted(CheckRef(s, start, end, collided, hit).Tested)
  {
    if start < end < |s| {
      PassSorted(s, start, end, end, collided, hit);
    }
  }

  /** Map.CheckCollisions only kills. */
  lemma CheckLater(s: seq<Snapshot>, start: int, end: int,
                   collided: (Snapshot, Snapshot) -> bool,
                   hit: (Snapshot, Snapshot) -> HitEffect)
    requires 0 <= start && end <= |s|
    ensures Later(s, CheckRef(s, start, end, collided, hit).Snaps)
  {
    if start < end < |s| {
      PassLater(s, start, end, start, end, collided, hit);
    } else {
      assert forall k | 0 <= k < |s| :: KilledFrom(s[k], s[k]);
    }
  }

  /** The states Map.CheckCollisions ends with are its pairs handed, in
      order, to HitStep. */
  lemma CheckApplied(s: seq<Snapshot>, start: int, end: int,
                     collided: (Snapshot, Snapshot) -> bool,
                     hit: (Snapshot, Snapshot) -> HitEffect)
    requires 0 <= start && end <= |s|
    ensures var r := CheckRef(s, start, end, collided, hit);
      PairsIn(r.Tested, |s|) && r.Snaps == Apply(s, r.Tested, collided, hit)
  {
    if start < end < |s| {
      PassApplied(s, start, end, end, collided, hit);
    }
  }

  /** What the three CheckCollisions calls of Map.Update do, on states: each
      tested pair is cross-tier, lower tier first, with both objects live
      before the first call; no pair is tested twice; every cross-tier pair
      live after the last call was tested. */
  lemma TiersRefFacts(act: seq<SpaceObject>, s: seq<Snapshot>, missile: int, ship: int, planet: int,
                      collided: (Snapshot, Snapshot) -> bool,
                      hit: (Snapshot, Snapshot) -> HitEffect)
    requires SortedByClass(act) && Active(act) && |s| == |act|
    requires missile == if Boundary(act, 2) > 0 then Boundary(act, 1) else |act|
    requires ship == if Boundary(act, 3) > 0 then Boundary(act, 2) else |act|
    requires planet == if |act| > 0 then Boundary(act, 3) else -1
    ensures var r := TiersRef(s, missile, ship, planet, collided, hit);
      && (forall t | t in r.Tested ::
            0 <= t.0 < t.1 < |act| && Rank(act[t.0].HitClass) < Rank(act[t.1].HitClass) &&
            LiveFlags(s[t.0].Flags) && LiveFlags(s[t.1].Flags))
      && (forall p, q | 0 <= p < q < |r.Tested| :: r.Tested[p] != r.Tested[q])
      && (forall i, j | 0 <= i < j < |act| && Rank(act[i].HitClass) < Rank(act[j].HitClass) &&
            LiveFlags(r.Snaps[i].Flags) && LiveFlags(r.Snaps[j].Flags) :: (i, j) in r.Tested)
  {
    TiersTestedLive(act, s, missile, ship, planet, collided, hit);
    TiersNoRepeat(act, s, missile, ship, planet, collided, hit);
    TiersAllTested(act, s, missile, ship, planet, collided, hit);
  }

  /** The pairs the three calls test are cross-tier, lower tier first, with
      both objects live before the first call. */
  lemma TiersTestedLive(act: seq<SpaceObject>, s: seq<Snapshot>, missile: int, ship: int, planet: int,
                        collided: (Snapshot, Snapshot) -> bool,
                        hit: (Snapshot, Snapshot) -> HitEffect)
    requires SortedByClass(act) && Active(act) && |s| == |act|
    requires missile == if Boundary(act, 2) > 0 then Boundary(act, 1) else |act|
    requires ship == if Boundary(act, 3) > 0 then Boundary(act, 2) else |act|
    requires planet == if |act| > 0 then Boundary(act, 3) else -1
    ensures forall t | t in TiersRef(s, missile, ship, planet, collided, hit).Tested ::
      0 <= t.0 < t.1 < |act| && Rank(act[t.0].HitClass) < Rank(act[t.1].HitClass) &&
      LiveFlags(s[t.0].Flags) && LiveFlags(s[t.1].Flags)
  {
    var r1 := CheckRef(s, 0, missile, collided, hit);
    var r2 := CheckRef(r1.Snaps, missile, ship, collided, hit);
    var r3 := CheckRef(r2.Snaps, ship, planet, collided, hit);
    assert TiersRef(s, missile, ship, planet, collided, hit).Tested == r1.Tested + r2.Tested + r3.Tested;
    CheckTestedLive(s, 0, missile, collided, hit);
    CheckTestedLive(r1.Snaps, missile, ship, collided, hit);
    CheckTestedLive(r2.Snaps, ship, planet, collided, hit);
    TestedAcrossTiers(act, missile, ship, planet, r1.Tested, r2.Tested, r3.Tested);
    CheckLater(s, 0, missile, collided, hit);
    CheckLater(r1.Snaps, missile, ship, collided, hit);
    TestedLiveAtStart(act, missile, ship, planet, r1.Tested, r2.Tested, r3.Tested, s, r1.Snaps, r2.Snaps);
  }

  /** The three calls test no pair twice. */
  lemma TiersNoRepeat(act: seq<SpaceObject>, s: seq<Snapshot>, missile: int, ship: int, planet: int,
                      collided: (Snapshot, Snapshot) -> bool,
                      hit: (Snapshot, Snapshot) -> HitEffect)
    requires SortedByClass(act) && Active(act) && |s| == |act|
    requires missile == if Boundary(act, 2) > 0 then Boundary(act, 1) else |act|
    requires ship == if Boundary(act, 3) > 0 then Boundary(act, 2) else |act|
    requires planet == if |act| > 0 then Boundary(act, 3) else -1
    ensures forall p, q | 0 <= p < q < |TiersRef(s, missile, ship, planet, collided, hit).Tested| ::
      TiersRef(s, missile, ship, planet, collided, hit).Tested[p] != TiersRef(s, missile, ship, planet, collided, hit).Tested[q]
  {
    var r1 := CheckRef(s, 0, missile, collided, hit);
    var r2 := CheckRef(r1.Snaps, missile, ship, collided, hit);
    var r3 := CheckRef(r2.Snaps, ship, planet, collided, hit);
    assert TiersRef(s, missile, ship, planet, collided, hit).Tested == r1.Tested + r2.Tested + r3.Tested;
    CheckReaches(s, 0, missile, collided, hit);
    CheckReaches(r1.Snaps, missile, ship, collided, hit);
    CheckReaches(r2.Snaps, ship, planet, collided, hit);
    CheckSorted(s, 0, missile, collided, hit);
    CheckSorted(r1.Snaps, missile, ship, collided, hit);
    CheckSorted(r2.Snaps, ship, planet, collided, hit);
    TiersDistinct(act, missile, ship, planet, r1.Tested, r2.Tested, r3.Tested);
  }

  /** Every cross-tier pair live after the three calls was tested. */
  lemma TiersAllTested(act: seq<SpaceObject>, s: seq<Snapshot>, missile: int, ship: int, planet: int,
                       collided: (Snapshot, Snapshot) -> bool,
                       hit: (Snapshot, Snapshot) -> HitEffect)
    requires SortedByClass(act) && Active(act) && |s| == |act|
    requires missile == if Boundary(act, 2) > 0 then Boundary(act, 1) else |act|
    requires ship == if Boundary(act, 3) > 0 then Boundary(act, 2) else |act|
    requires planet == if |act| > 0 then Boundary(act, 3) else -1
    ensures var r := TiersRef(s, missile, ship, planet, collided, hit);
      forall i, j | 0 <= i < j < |act| && Rank(act[i].HitClass) < Rank(act[j].HitClass) &&
        LiveFlags(r.Snaps[i].Flags) && LiveFlags(r.Snaps[j].Flags) :: (i, j) in r.Tested
  {
    var r1 := CheckRef(s, 0, missile, collided, hit);
    var r2 := CheckRef(r1.Snaps, missile, ship, collided, hit);
    var r3 := CheckRef(r2.Snaps, ship, planet, collided, hit);
    assert TiersRef(s, missile, ship, planet, collided, hit) == Pass(r3.Snaps, r1.Tested + r2.Tested + r3.Tested);
    CheckAllTested(s, 0, missile, collided, hit);
    CheckAllTested(r1.Snaps, missile, ship, collided, hit);
    CheckAllTested(r2.Snaps, ship, planet, collided, hit);
    CheckLater(r1.Snaps, missile, ship, collided, hit);
    CheckLater(r2.Snaps, ship, planet, collided, hit);
    LiveCrossTierTested(act, missile, ship, planet, r1.Tested, r2.Tested, r3.Tested, r1.Snaps, r2.Snaps, r3.Snaps);
  }

  /** The states the three calls end with are their pairs handed, in order,
      to HitStep. */
  lemma TiersApplied(s: seq<Snapshot>, missile: int, ship: int, planet: int,
                     collided: (Snapshot, Snapshot) -> bool,
                     hit: (Snapshot, Snapshot) -> HitEffect)
    requires 0 <= missile <= |s| && 0 <= ship <= |s| && planet <= |s|
    ensures var r := TiersRef(s, missile, ship, planet, collided, hit);
      PairsIn(r.Tested, |s|) && r.Snaps == Apply(s, r.Tested, collided, hit)
  {
    var r1 := CheckRef(s, 0, missile, collided, hit);
    var r2 := CheckRef(r1.Snaps, missile, ship, collided, hit);
    var r3 := CheckRef(r2.Snaps, ship, planet, collided, hit);
    CheckApplied(s, 0, missile, collided, hit);
    CheckApplied(r1.Snaps, missile, ship, collided, hit);
    CheckApplied(r2.Snaps, ship, planet, collided, hit);
    ApplyAppend(s, r1.Tested, r2.Tested, collided, hit);
    ApplyAppend(s, r1.Tested + r2.Tested, r3.Tested, collided, hit);
  }

  /** The hit that killed the object at k: in state m, the pair t found it
      live at one of its ends, the two collided, and the hit kills that end. */
  predicate KilledBy(m: seq<Snapshot>, t: (int, int), k: int,
                     collided: (Snapshot, Snapshot) -> bool,
                     hit: (Snapshot, Snapshot) -> HitEffect)
  {
    && 0 <= t.0 < |m| && 0 <= t.1 < |m| && 0 <= k < |m| && LiveFlags(m[k].Flags)
    && collided(m[t.0], m[t.1])
    && ((k == t.0 && hit(m[t.0], m[t.1]).KillsHitter) || (k == t.1 && hit(m[t.0], m[t.1]).KillsTarget))
  }

  /** A prefix of a prefix is a prefix of the whole. */
  lemma PrefixOfPrefix<T>(x: seq<T>, n: int, p: int)
    requires 0 <= p < n <= |x|
    ensures x[..n][..p] == x[..p] && x[..n][p] == x[p]
  {
  }

  /** One step kills only by a hit: an object live before HitStep and dead
      after it was killed by that step's pair. */
  lemma KilledByStep(m: seq<Snapshot>, t: (int, int), k: int,
                     collided: (Snapshot, Snapshot) -> bool,
                     hit: (Snapshot, Snapshot) -> HitEffect)
    requires 0 <= t.0 < |m| && 0 <= t.1 < |m| && t.0 != t.1 && 0 <= k < |m|
    requires LiveFlags(m[k].Flags) && !LiveFlags(HitStep(m, t, collided, hit)[k].Flags)
    ensures KilledBy(m, t, k, collided, hit)
  {
    var o := HitOutcome(m[t.0], m[t.1], collided, hit);
    assert k == t.0 || k == t.1;
  }

  /** Every death has a cause: an object live before the pairs ts and dead
      after them was killed by one of them, a pair that collided while it was
      live, with an effect that kills its end of the pair. */
  lemma {:induction false} DeathExplained(s: seq<Snapshot>, ts: seq<(int, int)>, k: int,
                                          collided: (Snapshot, Snapshot) -> bool,
                                          hit: (Snapshot, Snapshot) -> HitEffect)
    requires PairsIn(ts, |s|) && 0 <= k < |s|
    requires LiveFlags(s[k].Flags) && !LiveFlags(Apply(s, ts, collided, hit)[k].Flags)
    ensures exists p | 0 <= p < |ts| :: KilledBy(Apply(s, ts[..p], collided, hit), ts[p], k, collided, hit)
    decreases |ts|
  {
    var n := |ts| - 1;
    var m := Apply(s, ts[..n], collided, hit);
    if LiveFlags(m[k].Flags) {
      assert ts[n] in ts;
      assert Apply(s, ts, collided, hit) == HitStep(m, ts[n], collided, hit);
      KilledByStep(m, ts[n], k, collided, hit);
    } else {
      var pre := ts[..n];
      DeathExplained(s, pre, k, collided, hit);
      var p :| 0 <= p < n && KilledBy(Apply(s, pre[..p], collided, hit), pre[p], k, collided, hit);
      PrefixOfPrefix(ts, n, p);
    }
  }

  /** Every death in CheckCollisions has a cause: an object live before the
      call and dead after it was killed by one of the pairs it tested, a
      pair that collided while the object was live, with a hit that kills
      its end. */
  lemma CheckDeaths(s: seq<Snapshot>, start: int, end: int, k: int,
                    collided: (Snapshot, Snapshot) -> bool,
                    hit: (Snapshot, Snapshot) -> HitEffect)
    requires 0 <= start && end <= |s| && 0 <= k < |s|
    requires LiveFlags(s[k].Flags) && !LiveFlags(CheckRef(s, start, end, collided, hit).Snaps[k].Flags)
    ensures var ts := CheckRef(s, start, end, collided, hit).Tested;
      PairsIn(ts, |s|) &&
      exists p | 0 <= p < |ts| :: KilledBy(Apply(s, ts[..p], collided, hit), ts[p], k, collided, hit)
  {
    CheckApplied(s, start, end, collided, hit);
    DeathExplained(s, CheckRef(s, start, end, collided, hit).Tested, k, collided, hit);
  }

  /** Every death in the three calls of a bucket's turn has a cause, as for
      CheckDeaths. */
  lemma TiersDeaths(s: seq<Snapshot>, missile: int, ship: int, planet: int, k: int,
                    collided: (Snapshot, Snapshot) -> bool,
                    hit: (Snapshot, Snapshot) -> HitEffect)
    requires 0 <= missile <= |s| && 0 <= ship <= |s| && planet <= |s| && 0 <= k < |s|
    requires LiveFlags(s[k].Flags) && !LiveFlags(TiersRef(s, missile, ship, planet, collided, hit).Snaps[k].Flags)
    ensures var ts := TiersRef(s, missile, ship, planet, collided, hit).Tested;
      PairsIn(ts, |s|) &&
      exists p | 0 <= p < |ts| :: KilledBy(Apply(s, ts[..p], collided, hit), ts[p], k, collided, hit)
  {
    TiersApplied(s, missile, ship, planet, collided, hit);
    DeathExplained(s, TiersRef(s, missile, ship, planet, collided, hit).Tested, k, collided, hit);
  }
}
