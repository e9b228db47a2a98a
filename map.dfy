// The spatial grid of Map.cs: objects bucketed by the 100x100 world cell
// they stand in, the per-frame update sweep, and the tiered collision pass.
module MapGrid {
  import opened Objects
  import opened Collision
  import opened Wrappers

  /** World units per grid cell. */
  const Factor: real := 100.0

  /** A grid cell (a System.Drawing.Point in the game). */
  datatype Cell = Cell(X: int, Y: int)

  /** Map.WorldToPart: each coordinate divided by Factor and floored. */
  function WorldToPart(x: real, y: real): (c: Cell)
    ensures c.X as real * Factor <= x < (c.X as real + 1.0) * Factor
    ensures c.Y as real * Factor <= y < (c.Y as real + 1.0) * Factor
  {
    Cell((x / Factor).Floor, (y / Factor).Floor)
  }

  /** Map.PartToWorld: the world position of a cell's corner. */
  function PartToWorld(x: int, y: int): Point
  {
    Point(x as real * Factor, y as real * Factor)
  }

  /** A cell's corner lies in that cell, and a point lies in exactly one cell. */
  lemma PartToWorldRoundTrip(x: int, y: int)
    ensures WorldToPart(PartToWorld(x, y).X, PartToWorld(x, y).Y) == Cell(x, y)
  {
  }

  lemma CellUnique(x: real, y: real, c: Cell)
    requires c.X as real * Factor <= x < (c.X as real + 1.0) * Factor
    requires c.Y as real * Factor <= y < (c.Y as real + 1.0) * Factor
    ensures WorldToPart(x, y) == c
  {
  }

  /** The cell an object currently stands in. */
  function CellOf(o: SpaceObject): Cell
    reads o`Pos
  {
    WorldToPart(o.Pos.X, o.Pos.Y)
  }

  /** The sequence without its element at index i (List.RemoveAt). */
  function RemoveAt<T>(s: seq<T>, i: nat): (r: seq<T>)
    requires i < |s|
    ensures |r| == |s| - 1
    ensures forall k | 0 <= k < i :: r[k] == s[k]
    ensures forall k | i <= k < |r| :: r[k] == s[k + 1]
  {
    s[..i] + s[i + 1..]
  }

  class Map {
    const Name: string
    /** The grid: each cell that has a bucket maps to the bucket's objects. */
    var parts: map<Cell, seq<SpaceObject>>
    /** The objects on this map. */
    ghost var Objects: set<SpaceObject>

    /** The map's invariant, except that `moving` (when not null) may stand
        outside the cell of its bucket. */
    ghost predicate Inv(moving: SpaceObject?)
      reads this, Objects`Map, Objects`Pos
    {
      GridInv(this, parts, Objects, moving)
    }

    ghost predicate Valid()
      reads this, Objects`Map, Objects`Pos
    {
      Inv(null)
    }

    constructor (name: string)
      ensures Valid() && Name == name && parts == map[] && Objects == {}
    {
      Name := name;
      parts := map[];
      Objects := {};
    }

    /** Map.MakeObjects: the bucket of a cell, created empty when absent. */
    method MakeObjects(c: Cell) returns (list: seq<SpaceObject>)
      modifies this`parts
      ensures c in parts && list == parts[c]
      ensures parts == if c in old(parts) then old(parts) else old(parts)[c := []]
    {
      if c !in parts {
        parts := parts[c := []];
      }
      list := parts[c];
    }

    /** Map.Add: append the object to the bucket of its cell and make this its map. */
    method Add(obj: SpaceObject, ghost moving: SpaceObject?)
      requires Inv(moving) && obj !in Objects && obj != moving
      modifies this, obj`Map
      ensures Inv(moving)
      ensures Objects == old(Objects) + {obj} && obj.Map == this
      ensures var c := CellOf(obj);
        parts == old(parts)[c := (if c in old(parts) then old(parts[c]) else []) + [obj]]
    {
      ghost var p0, k0 := parts, Objects;
      var c := WorldToPart(obj.Pos.X, obj.Pos.Y);
      var list := MakeObjects(c);
      obj.Map := this;
      assert GridInv(this, p0, k0, moving);
      parts := parts[c := list + [obj]];
      Objects := Objects + {obj};
      assert parts == p0[c := (if c in p0 then p0[c] else []) + [obj]];
      AddToGrid(this, p0, k0, moving, obj);
    }

    /** Map.GetObjects(SPoint): the bucket of a cell, None when the cell has
        none; never creates a bucket. */
    method GetObjects(c: Cell) returns (list: Option<seq<SpaceObject>>)
      requires Valid()
      ensures list.None? <==> c !in parts
      ensures list.Some? ==> forall o | o in list.value :: o in Objects && CellOf(o) == c
      ensures forall o | o in Objects && CellOf(o) == c :: list.Some? && o in list.value
    {
      if c in parts {
        list := Some(parts[c]);
      } else {
        list := None;
      }
    }

    /** Map.GetObjects(float, float). */
    method GetObjectsAt(x: real, y: real) returns (list: Option<seq<SpaceObject>>)
      requires Valid()
      ensures list.None? <==> WorldToPart(x, y) !in parts
      ensures list.Some? ==> forall o | o in list.value :: o in Objects && CellOf(o) == WorldToPart(x, y)
      ensures forall o | o in Objects && CellOf(o) == WorldToPart(x, y) :: list.Some? && o in list.value
    {
      list := GetObjects(WorldToPart(x, y));
    }

    /** Map.Remove: take the object out of the bucket of its current cell and
        detach it from the map. */
    method Remove(obj: SpaceObject)
      requires Valid() && obj in Objects
      modifies this, obj`Map
      ensures Valid()
      ensures Objects == old(Objects) - {obj} && obj.Map == null
      ensures var c := CellOf(obj);
        c in old(parts) && obj in old(parts[c]) &&
        exists i | 0 <= i < |old(parts[c])| && old(parts[c])[i] == obj :: parts == old(parts)[c := RemoveAt(old(parts[c]), i)]
    {
      var c := WorldToPart(obj.Pos.X, obj.Pos.Y);
      assert c == CellOf(obj);
      var list := parts[c];
      var i := 0;
      while list[i] != obj
        invariant 0 <= i < |list| && obj in list[i..]
        decreases |list| - i
      {
        i := i + 1;
      }
      InvRelax(this, parts, Objects, obj);
      RemoveMoving(this, parts, Objects, c, i);
      parts := parts[c := RemoveAt(list, i)];
      obj.Map := null;
      Objects := Objects - {obj};
    }
 

    /** The objects spawned during one object's Update (shots, say), added to
        the map one by one as Map.Add does. `moving` is the object being
        updated, which may stand outside its bucket's cell meanwhile. Every
        spawned object is new, starts live and is appended to the bucket of
        its cell; `received` holds the cells that got one. */
    method AddSpawned(spawned: seq<Spawn>, ghost moving: SpaceObject)
        returns (ghost received: set<Cell>)
      requires Inv(moving) && moving in Objects
      modifies this
      ensures Inv(moving) && moving in Objects && unchanged(moving)
      ensures old(Objects) <= Objects
      ensures forall o | o in Objects && o !in old(Objects) :: fresh(o) && Live(o)
      ensures old(parts).Keys <= parts.Keys
      ensures Appended(old(parts), parts, old(Objects), received)
    {
      received := {};
      var n := 0;
      while n < |spawned|
        invariant n <= |spawned|
        invariant Inv(moving) && moving in Objects
        invariant old(Objects) <= Objects
        invariant forall o | o in Objects && o !in old(Objects) :: fresh(o) && Live(o)
        invariant old(parts).Keys <= parts.Keys
        invariant Appended(old(parts), parts, old(Objects), received)
      {
        var sp := spawned[n];
        var obj := new SpaceObject(sp.Pos, sp.Angle, sp.HitClass);
        ghost var p0, r0 := parts, received;
        Add(obj, moving);
        received := received + {CellOf(obj)};
        AppendedStep(old(parts), p0, parts, old(Objects), r0, CellOf(obj), obj);
        n := n + 1;
      }
    }

    /** Map.Update (Map.cs:95-174) with each object's own Update given by
        `step`, and SpaceObject.Collided and Hit by `collided` and `hit`. Each
        object live at the start has taken at least one step (`steps`), and
        the collision pass may then only have killed it; the dead ones were
        taken off and detached, those dead at the start untouched. A bucket
        is dropped when it was empty when the first pass reached it and is
        still empty once that pass is over, so every dropped bucket was empty
        at the start. Every bucket is sorted by hit class, and `checks`
        records its collision turn: the one BucketRef gives from the states
        its active objects had after their steps, testing only cross-tier
        pairs, lower tier first, none twice, and every such pair still live
        at the end. */
    method Update(step: Snapshot -> StepResult, collided: (Snapshot, Snapshot) -> bool,
                  hit: (Snapshot, Snapshot) -> HitEffect)
        returns (ghost steps: map<SpaceObject, nat>, ghost checks: map<Cell, Check>)
      requires Valid()
      modifies this, Objects
      ensures Valid()
      ensures forall o | o in old(Objects) && old(Live(o)) ::
        o in steps && steps[o] >= 1 && KilledFrom(Steps(old(Snap(o)), step, steps[o]), Snap(o))
      ensures checks.Keys == parts.Keys && AllFollow(checks, collided, hit)
      ensures forall c | c in parts :: CheckedPairs(parts[c], checks[c], Snaps(Objects))
      ensures forall c, k | c in parts && 0 <= k < |checks[c].Active| && checks[c].Active[k] in old(Objects) ::
        var o := checks[c].Active[k];
        old(Live(o)) && o in steps && checks[c].Before[k] == Steps(old(Snap(o)), step, steps[o])
      ensures forall o | o in Objects :: o in old(Objects) || fresh(o)
      ensures forall o | o in old(Objects) && o !in Objects :: !Live(o) && o.Map == null
      ensures forall o | o in old(Objects) && old(!Live(o)) :: o !in Objects && Unmoved(o)
      ensures forall c | c in old(parts) && c !in parts :: old(parts[c]) == []
      ensures forall c | c in parts :: SortedByClass(parts[c])
    {
      steps := SweepAndPrune(step);
      label Pruned:
      checks := CollideAll(collided, hit);
      forall o | o in old(Objects) && o !in Objects
        ensures o.Flags == old@Pruned(o.Flags)
      {
      }
      forall o | o in old(Objects) && old(Live(o))
        ensures o in steps && steps[o] >= 1 && KilledFrom(Steps(old(Snap(o)), step, steps[o]), Snap(o))
      {
        assert Steps(old(Snap(o)), step, steps[o]) == old@Pruned(Snap(o));
      }
      forall c, k | c in parts && 0 <= k < |checks[c].Active| && checks[c].Active[k] in old(Objects)
        ensures var o := checks[c].Active[k];
          old(Live(o)) && o in steps && checks[c].Before[k] == Steps(old(Snap(o)), step, steps[o])
      {
        var o := checks[c].Active[k];
        assert StartedFrom(checks[c], old@Pruned(Snaps(Objects)));
        assert o in old@Pruned(Objects) && checks[c].Before[k] == old@Pruned(Snap(o));
      }
    }

    /** The first two passes of Map.Update (Map.cs:96-136): each object live
        at the start has taken at least one step; afterwards no object on the
        map is dead, and the buckets dropped were empty at the start. */
    method SweepAndPrune(step: Snapshot -> StepResult) returns (ghost steps: map<SpaceObject, nat>)
      requires Valid()
      modifies this, Objects
      ensures Valid()
      ensures forall o | o in old(Objects) && old(Live(o)) ::
        o in steps && steps[o] >= 1 && Snap(o) == Steps(old(Snap(o)), step, steps[o])
      ensures forall o | o in Objects :: Live(o)
      ensures forall o | o in Objects :: o in old(Objects) || fresh(o)
      ensures forall o | o in old(Objects) && o !in Objects :: !Live(o) && o.Map == null
      ensures forall o | o in old(Objects) && old(!Live(o)) :: o !in Objects && Unmoved(o)
      ensures forall c | c in old(parts) && c !in parts :: old(parts[c]) == []
    {
      var emptied;
      emptied, steps := Sweep(step);
      Prune(emptied);
    }

    /** The second pass of Map.Update (Map.cs:132-136): a cell whose bucket was
        empty when the first pass reached it loses its bucket if that is still
        empty; nothing else changes. */
    method Prune(emptied: seq<Cell>)
      requires Valid()
      modifies this`parts
      ensures Valid()
      ensures forall c :: c in parts <==> c in old(parts) && !(c in emptied && old(parts[c]) == [])
      ensures forall c | c in parts :: parts[c] == old(parts[c])
    {
      var n := 0;
      while n < |emptied|
        invariant n <= |emptied| && Valid()
        invariant forall c :: c in parts <==> c in old(parts) && !(c in emptied[..n] && old(parts[c]) == [])
        invariant forall c | c in parts :: parts[c] == old(parts[c])
      {
        var c := emptied[n];
        if c in parts && parts[c] == [] {
          parts := parts - {c};
        }
        n := n + 1;
      }
      assert emptied[..n] == emptied;
    }

    /** The collision pass of Map.Update (Map.cs:138-173): every bucket is
        sorted by hit class and its objects checked against each other
        (CollideBucket), as `checks` records: the pairs tested were live when
        the pass began, and every cross-tier pair live at the end was tested.
        The buckets keep their objects; objects only die. */
    method CollideAll(collided: (Snapshot, Snapshot) -> bool, hit: (Snapshot, Snapshot) -> HitEffect)
        returns (ghost checks: map<Cell, Check>)
      requires Valid()
      modifies this`parts, Objects`Flags
      ensures Valid() && parts.Keys == old(parts).Keys
      ensures forall c | c in parts :: SortedByClass(parts[c]) && multiset(parts[c]) == multiset(old(parts[c]))
      ensures forall o | o in Objects :: KilledFrom(old(Snap(o)), Snap(o))
      ensures checks.Keys == parts.Keys && CellsChecked(parts.Keys, parts, checks, old(Snaps(Objects)), Snaps(Objects))
      ensures AllFollow(checks, collided, hit)
    {
      var keys := CellOrder();
      checks := CollideInOrder(keys, collided, hit);
    }

    /** CollideAll's turns of the cells `keys`, each cell with a bucket once. */
    method CollideInOrder(keys: seq<Cell>, collided: (Snapshot, Snapshot) -> bool, hit: (Snapshot, Snapshot) -> HitEffect)
        returns (ghost checks: map<Cell, Check>)
      requires Valid()
      requires forall c :: c in keys <==> c in parts
      requires forall k, j | 0 <= k < j < |keys| :: keys[k] != keys[j]
      modifies this`parts, Objects`Flags
      ensures Valid() && parts.Keys == old(parts).Keys
      ensures forall c | c in parts :: SortedByClass(parts[c]) && multiset(parts[c]) == multiset(old(parts[c]))
      ensures forall o | o in Objects :: KilledFrom(old(Snap(o)), Snap(o))
      ensures checks.Keys == parts.Keys && CellsChecked(parts.Keys, parts, checks, old(Snaps(Objects)), Snaps(Objects))
      ensures AllFollow(checks, collided, hit)
    {
      ghost var parts0, snaps0 := parts, Snaps(Objects);
      CollideStart(snaps0);
      ChecksStart(parts, snaps0);
      checks := CollideCells(keys, collided, hit, parts0, snaps0);
      CollideEnd(parts0, snaps0);
    }

    lemma CollideStart(snaps0: map<SpaceObject, Snapshot>)
      requires Valid() && snaps0 == Snaps(Objects)
      ensures CollideProgress({}, parts, snaps0)
    {
    }

    lemma CollideEnd(parts0: map<Cell, seq<SpaceObject>>, snaps0: map<SpaceObject, Snapshot>)
      requires CollideProgress(parts0.Keys, parts0, snaps0)
      ensures Valid() && parts.Keys == parts0.Keys
      ensures forall c | c in parts :: SortedByClass(parts[c]) && multiset(parts[c]) == multiset(parts0[c])
      ensures forall o | o in Objects :: KilledFrom(snaps0[o], Snap(o))
    {
    }

    /** The loop of CollideAll over the cells `keys`, each once. */
    method CollideCells(keys: seq<Cell>, collided: (Snapshot, Snapshot) -> bool, hit: (Snapshot, Snapshot) -> HitEffect,
                        ghost parts0: map<Cell, seq<SpaceObject>>, ghost snaps0: map<SpaceObject, Snapshot>)
        returns (ghost checks: map<Cell, Check>)
      requires forall c :: c in keys <==> c in parts0
      requires forall k, j | 0 <= k < j < |keys| :: keys[k] != keys[j]
      requires CollideProgress({}, parts0, snaps0) && ChecksDone({}, parts, map[], snaps0, Snaps(Objects))
      modifies this`parts, snaps0.Keys`Flags
      ensures CollideProgress(parts0.Keys, parts0, snaps0)
      ensures checks.Keys == parts.Keys && CellsChecked(parts.Keys, parts, checks, snaps0, Snaps(Objects))
      ensures AllFollow(checks, collided, hit)
    {
      ghost var visited: set<Cell> := {};
      checks := map[];
      var pi := 0;
      while pi < |keys|
        invariant pi <= |keys| && forall j | 0 <= j < |keys| :: keys[j] in visited <==> j < pi
        invariant visited <= parts0.Keys && CollideProgress(visited, parts0, snaps0)
        invariant ChecksDone(visited, parts, checks, snaps0, Snaps(Objects)) && AllFollow(checks, collided, hit)
      {
        var c := keys[pi];
        VisitNext(keys, pi, visited);
        checks := CollideStep(c, collided, hit, visited, parts0, snaps0, checks);
        visited := visited + {c};
        pi := pi + 1;
      }
      AllVisited(keys, visited, parts0.Keys);
    }

    /** Where CollideAll stands once the cells `visited` have had their turn,
        given the buckets `parts0` and every object's flags `snaps0` when the
        pass began: every bucket holds the objects it held, those visited are
        sorted by hit class, the others untouched; objects only died. */
    ghost predicate CollideProgress(visited: set<Cell>, parts0: map<Cell, seq<SpaceObject>>,
                                    snaps0: map<SpaceObject, Snapshot>)
      reads this, Objects
    {
      && Valid() && parts.Keys == parts0.Keys
      && (forall c | c in parts :: multiset(parts[c]) == multiset(parts0[c]))
      && SortedCells(parts, visited)
      && (forall c | c in parts && c !in visited :: parts[c] == parts0[c])
      && KilledOnly(snaps0)
    }

    /** Compared with their states `snaps0`, the objects on the map can only
        have died. */
    ghost predicate KilledOnly(snaps0: map<SpaceObject, Snapshot>)
      reads this, Objects
    {
      && snaps0.Keys == Objects
      && forall o | o in Objects :: KilledFrom(snaps0[o], Snap(o))
    }

    /** Cell c takes its turn in CollideAll. */
    method CollideStep(c: Cell, collided: (Snapshot, Snapshot) -> bool, hit: (Snapshot, Snapshot) -> HitEffect,
                       ghost visited: set<Cell>, ghost parts0: map<Cell, seq<SpaceObject>>,
                       ghost snaps0: map<SpaceObject, Snapshot>, ghost checks: map<Cell, Check>)
        returns (ghost checks': map<Cell, Check>)
      requires CollideProgress(visited, parts0, snaps0) && c in parts0 && c !in visited
      requires ChecksDone(visited, parts, checks, snaps0, Snaps(Objects)) && AllFollow(checks, collided, hit)
      modifies this`parts, snaps0.Keys`Flags
      ensures CollideProgress(visited + {c}, parts0, snaps0)
      ensures ChecksDone(visited + {c}, parts, checks', snaps0, Snaps(Objects)) && AllFollow(checks', collided, hit)
    {
      assert c in parts;
      ghost var p0, f0 := parts, Snaps(Objects);
      ghost var ch := CollideCell(c, collided, hit, snaps0);
      SortedCellsStep(p0, parts, visited, c);
      OthersKeptOf(p0, c, f0, Snaps(Objects));
      CheckStep(visited, p0, parts, checks, ch, c, snaps0, f0, Snaps(Objects));
      checks' := checks[c := ch];
      FollowsAdded(checks, c, ch, collided, hit);
    }

    /** One bucket's turn in the collision pass of Map.Update (Map.cs:139-172):
        the bucket is sorted by hit class and its objects checked against each
        other (CollideBucket). `ch` records the check: only cross-tier pairs,
        lower tier first, none twice, both live when the turn began, and
        every cross-tier pair live afterwards among them. */
    method CollideCell(c: Cell, collided: (Snapshot, Snapshot) -> bool, hit: (Snapshot, Snapshot) -> HitEffect,
                       ghost snaps0: map<SpaceObject, Snapshot>)
        returns (ghost ch: Check)
      requires Valid() && c in parts && KilledOnly(snaps0)
      modifies this`parts, (set o | o in parts[c])`Flags
      ensures Valid() && parts.Keys == old(parts).Keys
      ensures SortedByClass(parts[c]) && multiset(parts[c]) == multiset(old(parts[c]))
      ensures forall d | d in parts && d != c :: parts[d] == old(parts[d])
      ensures KilledOnly(snaps0)
      ensures Follows(ch, collided, hit)
      ensures CheckedPairs(parts[c], ch, Snaps(Objects)) && StartedFrom(ch, old(Snaps(Objects)))
      ensures forall o | o in Objects && o !in old(parts[c]) :: Snap(o) == old(Snap(o))
    {
      ghost var bucket := parts[c];
      ch := SortCell(c, collided, hit);
      forall o | o in Objects
        ensures KilledFrom(snaps0[o], Snap(o))
      {
        if o !in bucket {
          assert o.Flags == old(o.Flags);
        }
      }
    }

    /** CollideCell on the bucket itself: sorted and checked by CollideBucket,
        which only kills its objects. */
    method SortCell(c: Cell, collided: (Snapshot, Snapshot) -> bool, hit: (Snapshot, Snapshot) -> HitEffect)
        returns (ghost ch: Check)
      requires Valid() && c in parts
      modifies this`parts, (set o | o in parts[c])`Flags
      ensures Valid() && parts.Keys == old(parts).Keys
      ensures SortedByClass(parts[c]) && multiset(parts[c]) == multiset(old(parts[c]))
      ensures forall d | d in parts && d != c :: parts[d] == old(parts[d])
      ensures forall o | o in old(parts[c]) :: KilledFrom(old(Snaps(Objects))[o], Snaps(Objects)[o])
      ensures Follows(ch, collided, hit)
      ensures CheckedPairs(parts[c], ch, Snaps(Objects)) && StartedFrom(ch, old(Snaps(Objects)))
    {
      var sorted;
      sorted, ch := CheckBucket(c, collided, hit);
      ghost var now := Snaps(Objects);
      SetBucket(c, sorted);
      assert Snaps(Objects) == now;
    }

    /** The bucket of c becomes `sorted`; no object changes. */
    method SetBucket(c: Cell, sorted: seq<SpaceObject>)
      requires GridInv(this, parts[c := sorted], Objects, null)
      modifies this`parts
      ensures parts == old(parts)[c := sorted] && Valid()
      ensures Snaps(Objects) == old(Snaps(Objects))
    {
      parts := parts[c := sorted];
    }

    /** CollideBucket on the bucket of c: the reordered bucket it returns
        could replace the old one without breaking the grid. */
    method CheckBucket(c: Cell, collided: (Snapshot, Snapshot) -> bool, hit: (Snapshot, Snapshot) -> HitEffect)
        returns (sorted: seq<SpaceObject>, ghost ch: Check)
      requires Valid() && c in parts
      modifies (set o | o in parts[c])`Flags
      ensures GridInv(this, parts[c := sorted], Objects, null)
      ensures SortedByClass(sorted) && multiset(sorted) == multiset(parts[c])
      ensures forall o | o in parts[c] :: KilledFrom(old(Snap(o)), Snap(o))
      ensures Follows(ch, collided, hit)
      ensures CheckedPairs(sorted, ch, Snaps(Objects)) && StartedFrom(ch, old(Snaps(Objects)))
    {
      assert forall p, q | 0 <= p < q < |parts[c]| :: parts[c][p] != parts[c][q];
      sorted, ch := CollideChecked(parts[c], collided, hit, Objects);
      PermuteBucket(this, parts, Objects, c, sorted);
    }

    /** The cells that have a bucket, each once, in the dictionary's
        enumeration order (which the game does not fix: any order will do). */
    method CellOrder() returns (keys: seq<Cell>)
      ensures forall k, j | 0 <= k < j < |keys| :: keys[k] != keys[j]
      ensures forall c :: c in keys <==> c in parts
    {
      keys := [];
      var rest := parts.Keys;
      while rest != {}
        invariant forall k, j | 0 <= k < j < |keys| :: keys[k] != keys[j]
        invariant forall c :: c in parts <==> c in keys || c in rest
        invariant forall c | c in keys :: c !in rest
        decreases |rest|
      {
        var c :| c in rest;
        keys := keys + [c];
        rest := rest - {c};
      }
    }

    /** The first pass of Map.Update (Map.cs:96-130): every bucket that
        existed when the pass began is visited once; one empty when reached
        is listed in `emptied`, any other has its objects take their turns
        (SweepBucket). Each object live at the start has taken steps[o] >= 1
        steps: one in its own cell's visit, and one more whenever it moved
        into a bucket that existed and was still to be visited, since the
        pass runs over the cells it listed at the start but over their
        buckets as they stand when reached. Afterwards every object on the
        map is live: the dead ones, whether dead at the start (and then
        untouched) or killed by their own update, have left the map and been
        detached from it. An emptied cell's bucket was empty at the start. */
    method Sweep(step: Snapshot -> StepResult) returns (emptied: seq<Cell>, ghost steps: map<SpaceObject, nat>)
      requires Valid()
      modifies this, Objects
      ensures Valid() && old(parts).Keys <= parts.Keys
      ensures forall o | o in old(Objects) && old(Live(o)) ::
        o in steps && steps[o] >= 1 && Snap(o) == Steps(old(Snap(o)), step, steps[o])
      ensures forall o | o in Objects :: Live(o)
      ensures forall o | o in Objects :: o in old(Objects) || fresh(o)
      ensures forall o | o in old(Objects) && o !in Objects :: !Live(o) && o.Map == null
      ensures forall o | o in old(Objects) && old(!Live(o)) :: o !in Objects && Unmoved(o)
      ensures forall c | c in emptied :: c in old(parts) && old(parts[c]) == []
    {
      ghost var objs0, snaps0, parts0 := Objects, Snaps(Objects), parts;
      forall o | o in objs0
        ensures CellAt(snaps0[o]) == CellOf(o)
      {
      }
      var keys := CellOrder();
      emptied, steps := SweepCells(keys, step, objs0, snaps0, parts0);
      SweepDone(parts0.Keys, objs0, snaps0, parts0);
      forall o | o in old(Objects) && old(!Live(o))
        ensures o !in Objects && Unmoved(o)
      {
        assert snaps0[o] == old(Snap(o));
      }
    }

    /** The loop of Sweep over the cells `keys`, which had buckets when the
        pass began. */
    method SweepCells(keys: seq<Cell>, step: Snapshot -> StepResult, ghost objs0: set<SpaceObject>,
                      ghost snaps0: map<SpaceObject, Snapshot>, ghost parts0: map<Cell, seq<SpaceObject>>)
        returns (emptied: seq<Cell>, ghost counts: map<SpaceObject, nat>)
      requires forall c :: c in keys <==> c in parts0
      requires forall k, j | 0 <= k < j < |keys| :: keys[k] != keys[j]
      requires SweepProgress({}, objs0, snaps0, parts0) && objs0 == Objects && snaps0 == Snaps(objs0)
      modifies this, Objects
      ensures SweepProgress(parts0.Keys, objs0, snaps0, parts0)
      ensures Counted(snaps0, Snaps(objs0), counts, parts0.Keys, step)
      ensures forall o | o in Objects :: o in objs0 || fresh(o)
      ensures forall c | c in emptied :: c in parts0 && parts0[c] == []
    {
      ghost var visited: set<Cell> := {};
      emptied := [];
      counts := map o | o in snaps0 :: 0;
      CountedStart(snaps0, step);
      var pi := 0;
      while pi < |keys|
        invariant pi <= |keys| && forall j | 0 <= j < |keys| :: keys[j] in visited <==> j < pi
        invariant SweepProgress(visited, objs0, snaps0, parts0)
        invariant Counted(snaps0, Snaps(objs0), counts, visited, step)
        invariant forall o | o in Objects :: o in objs0 || fresh(o)
        invariant forall c | c in emptied :: c in parts0 && parts0[c] == []
      {
        var c := keys[pi];
        VisitNext(keys, pi, visited);
        var empty;
        empty, counts := SweepCell(c, step, visited, objs0, snaps0, parts0, counts);
        if empty {
          emptied := emptied + [c];
        }
        visited := visited + {c};
        pi := pi + 1;
      }
      assert visited == parts0.Keys;
    }

    /** What holds in Sweep once the cells `visited` have been visited, in
        terms of the objects `objs0`, their states `snaps0` and the buckets
        `parts0` when the pass began: buckets not yet visited have only grown;
        an object gone from the map is dead and detached; a dead object still
        on the map was dead at the start, is untouched and stands in a cell
        not yet visited; and so does any object dead at the start that is
        still on the map. */
    ghost predicate SweepProgress(visited: set<Cell>, objs0: set<SpaceObject>,
                                  snaps0: map<SpaceObject, Snapshot>, parts0: map<Cell, seq<SpaceObject>>)
      reads this, Objects, objs0
    {
      && Valid() && visited <= parts0.Keys && parts0.Keys <= parts.Keys && snaps0.Keys == objs0
      && (forall o | o in objs0 :: CellAt(snaps0[o]) in parts0 && o in parts0[CellAt(snaps0[o])])
      && (forall c | c in parts0 && c !in visited :: parts0[c] <= parts[c])
      && (forall o | o in objs0 && o !in Objects :: !Live(o) && o.Map == null)
      && (forall o | o in Objects && !Live(o) :: o in objs0)
      && (forall o | o in objs0 && !LiveFlags(snaps0[o].Flags) :: Snap(o) == snaps0[o])
      && (forall o | o in objs0 && o in Objects && !Live(o) :: Snap(o) == snaps0[o] && CellOf(o) !in visited)
    }

    /** Once every cell that had a bucket has been visited, no object on the
        map is dead, and none that was dead at the start is left on it. */
    lemma SweepDone(visited: set<Cell>, objs0: set<SpaceObject>,
                    snaps0: map<SpaceObject, Snapshot>, parts0: map<Cell, seq<SpaceObject>>)
      requires SweepProgress(visited, objs0, snaps0, parts0) && visited == parts0.Keys
      ensures forall o | o in Objects :: Live(o)
      ensures forall o | o in objs0 && !LiveFlags(snaps0[o].Flags) :: o !in Objects
    {
    }

    /** Map.Update visits cell c in its first pass (Map.cs:109-129). `empty`
        says whether c's bucket was empty when reached; it was then empty at
        the start too. Each object live at the start that started in c has
        now taken at least one step (`counts` to `counts'`), and so has any
        other object that came into c's bucket before the visit. */
    method SweepCell(c: Cell, step: Snapshot -> StepResult, ghost visited: set<Cell>, ghost objs0: set<SpaceObject>,
                     ghost snaps0: map<SpaceObject, Snapshot>, ghost parts0: map<Cell, seq<SpaceObject>>,
                     ghost counts: map<SpaceObject, nat>)
        returns (empty: bool, ghost counts': map<SpaceObject, nat>)
      requires SweepProgress(visited, objs0, snaps0, parts0) && c in parts0 && c !in visited
      requires Counted(snaps0, Snaps(objs0), counts, visited, step)
      modifies this, Objects
      ensures SweepProgress(visited + {c}, objs0, snaps0, parts0)
      ensures Counted(snaps0, Snaps(objs0), counts', visited + {c}, step)
      ensures forall o | o in Objects :: o in old(Objects) || fresh(o)
      ensures empty <==> old(parts[c]) == []
      ensures empty ==> parts0[c] == []
    {
      ghost var s0, bucket := Snaps(objs0), parts[c];
      SweepReached(c, visited, objs0, snaps0, parts0);
      empty := parts[c] == [];
      if empty {
        SweepSkip(c, visited, objs0, snaps0, parts0);
      } else {
        SweepFull(c, step, visited, objs0, snaps0, parts0);
      }
      CountStep(snaps0, s0, Snaps(objs0), counts, visited, c, bucket, step);
      counts' := Bump(counts, bucket);
    }

    /** Visiting a cell whose bucket is empty changes nothing. */
    lemma SweepSkip(c: Cell, visited: set<Cell>, objs0: set<SpaceObject>,
                    snaps0: map<SpaceObject, Snapshot>, parts0: map<Cell, seq<SpaceObject>>)
      requires SweepProgress(visited, objs0, snaps0, parts0) && c in parts0 && c !in visited
      requires parts[c] == []
      ensures SweepProgress(visited + {c}, objs0, snaps0, parts0) && parts0[c] == []
    {
    }

    /** SweepCell on a cell whose bucket has objects. */
    method SweepFull(c: Cell, step: Snapshot -> StepResult, ghost visited: set<Cell>, ghost objs0: set<SpaceObject>,
                     ghost snaps0: map<SpaceObject, Snapshot>, ghost parts0: map<Cell, seq<SpaceObject>>)
      requires SweepProgress(visited, objs0, snaps0, parts0) && c in parts0 && c !in visited
      modifies this, Objects
      ensures SweepProgress(visited + {c}, objs0, snaps0, parts0)
      ensures forall o | o in objs0 ::
        Snap(o) == if o in old(parts[c]) && old(Live(o)) then After(old(Snap(o)), step) else old(Snap(o))
      ensures forall o | o in Objects :: o in old(Objects) || fresh(o)
    {
      ghost var p0, bucket := parts, parts[c];
      ghost var received := SweepBucket(c, step);
      forall d | d in parts0 && d !in visited + {c}
        ensures parts0[d] <= parts[d]
      {
        assert (p0 - {c})[d] <= (parts - {c})[d];
      }
      forall o | o in objs0
        ensures Snap(o) == if o in bucket && old(Live(o)) then After(old(Snap(o)), step) else old(Snap(o))
      {
        if o in bucket {
          var k :| 0 <= k < |bucket| && bucket[k] == o;
        }
      }
    }

    /** When the sweep reaches cell c, every object that started there is in
        its bucket, and those of them live at the start still are. */
    lemma SweepReached(c: Cell, visited: set<Cell>, objs0: set<SpaceObject>,
                       snaps0: map<SpaceObject, Snapshot>, parts0: map<Cell, seq<SpaceObject>>)
      requires SweepProgress(visited, objs0, snaps0, parts0) && c in parts0 && c !in visited
      ensures forall o | o in objs0 && CellAt(snaps0[o]) == c :: o in parts[c]
      ensures forall o | o in parts[c] && o in objs0 :: CellAt(Snap(o)) == c
      ensures forall o | o in parts[c] && o in objs0 && LiveFlags(snaps0[o].Flags) :: Live(o)
    {
      forall o | o in objs0 && CellAt(snaps0[o]) == c
        ensures o in parts[c]
      {
        var k :| 0 <= k < |parts0[c]| && parts0[c][k] == o;
        assert parts[c][k] == o;
      }
    }

    /** The inner loop of the sweep of Map.Update (Map.cs:113-129): bucket c's
        objects from last to first, each taking its turn (UpdateAt). Every
        object of the bucket live at the start is updated exactly once, from
        the state it started in; every object of the bucket dead at the start
        leaves the map untouched; objects outside the bucket keep their
        state and their place, their buckets only gaining objects at the
        end; and everything on the map that was not in another bucket is
        live afterwards. */
    method SweepBucket(c: Cell, step: Snapshot -> StepResult) returns (ghost received: set<Cell>)
      requires Valid() && c in parts
      modifies this, set o | o in parts[c]
      ensures Valid() && c in parts
      ensures old(parts).Keys <= parts.Keys
      ensures var others := old(Objects) - set o | o in old(parts[c]);
        && Appended(old(parts) - {c}, parts - {c}, others, received)
        && (forall o | o in others :: o in Objects && Unmoved(o))
        && (forall o | o in Objects && o !in others :: Live(o))
      ensures forall o | o in Objects :: o in old(Objects) || fresh(o)
      ensures forall k | 0 <= k < |old(parts[c])| :: var o := old(parts[c][k]);
        && (old(Live(o)) ==> Stepped(o, step))
        && (old(!Live(o)) ==> o !in Objects && o.Map == null && Unmoved(o))
        && (o !in Objects ==> !Live(o) && o.Map == null)
    {
      ghost var objs := parts[c];
      ghost var others := Objects - set o | o in objs;
      ghost var start := map o | o in Objects :: Snap(o);
      ghost var oldParts := parts;
      SweepStart(c, step);
      received := SweepLoop(c, step, objs, others, start, oldParts);
      SweepEnd(c, objs, others, start, oldParts, received, step);
      forall k | 0 <= k < |objs|
        ensures var o := objs[k];
          && (old(Live(o)) ==> Stepped(o, step))
          && (old(!Live(o)) ==> o !in Objects && o.Map == null && Unmoved(o))
          && (o !in Objects ==> !Live(o) && o.Map == null)
      {
        var o := objs[k];
        assert start[o] == old(Snap(o));
        assert LiveFlags(start[o].Flags) ==> Snap(o) == After(start[o], step);
        assert !LiveFlags(start[o].Flags) ==> o !in Objects && o.Map == null && Snap(o) == start[o];
      }
    }

    /** The loop of SweepBucket: the objects of bucket c take their turns,
        from the last to the first. */
    method SweepLoop(c: Cell, step: Snapshot -> StepResult, ghost objs: seq<SpaceObject>,
                     ghost others: set<SpaceObject>, ghost start: map<SpaceObject, Snapshot>,
                     ghost oldParts: map<Cell, seq<SpaceObject>>)
        returns (ghost received: set<Cell>)
      requires c in parts && SweepInv(c, |parts[c]| - 1, objs, others, start, oldParts, {}, step)
      modifies this, set o | o in objs
      ensures SweepInv(c, -1, objs, others, start, oldParts, received, step)
      ensures forall o | o in Objects :: o in old(Objects) || fresh(o)
    {
      received := {};
      var i := |parts[c]| - 1;
      while i >= 0
        invariant SweepInv(c, i, objs, others, start, oldParts, received, step)
        invariant forall o | o in Objects :: o in old(Objects) || fresh(o)
      {
        received := SweepOne(c, i, step, objs, others, start, oldParts, received);
        i := i - 1;
      }
    }

    lemma SweepStart(c: Cell, step: Snapshot -> StepResult)
      requires Valid() && c in parts
      ensures SweepInv(c, |parts[c]| - 1, parts[c], Objects - set o | o in parts[c],
                       map o | o in Objects :: Snap(o), parts, {}, step)
    {
      AppendedRefl(parts - {c}, Objects - set o | o in parts[c]);
    }

    lemma SweepEnd(c: Cell, objs: seq<SpaceObject>, others: set<SpaceObject>,
                   start: map<SpaceObject, Snapshot>, oldParts: map<Cell, seq<SpaceObject>>,
                   received: set<Cell>, step: Snapshot -> StepResult)
      requires SweepInv(c, -1, objs, others, start, oldParts, received, step)
      requires start.Keys == others + set o | o in objs
      ensures forall o | o in Objects && o !in others :: Live(o)
      ensures forall k | 0 <= k < |objs| :: var o := objs[k];
        && (LiveFlags(start[o].Flags) ==> Snap(o) == After(start[o], step))
        && (!LiveFlags(start[o].Flags) ==> o !in Objects && o.Map == null && Snap(o) == start[o])
        && (o !in Objects ==> !Live(o) && o.Map == null)
    {
    }

    /** What holds in SweepBucket before the object at index i takes its turn:
        `objs` is the bucket as it was, `start` every object's state then,
        `others` the objects of other buckets. */
    ghost predicate SweepInv(c: Cell, i: int, objs: seq<SpaceObject>, others: set<SpaceObject>,
                             start: map<SpaceObject, Snapshot>, oldParts: map<Cell, seq<SpaceObject>>,
                             received: set<Cell>, step: Snapshot -> StepResult)
      reads this, Objects, start.Keys
    {
      && -1 <= i < |objs|
      && Valid() && c in parts && i < |parts[c]| && parts[c][..i + 1] == objs[..i + 1]
      && oldParts.Keys <= parts.Keys
      && Appended(oldParts - {c}, parts - {c}, others, received)
      && SweepStates(i, objs, others, start, step)
    }

    /** The object-state part of SweepInv, on the current state of the
        objects of `start`; objects that joined the map since are live. */
    ghost predicate SweepStates(i: int, objs: seq<SpaceObject>, others: set<SpaceObject>,
                                start: map<SpaceObject, Snapshot>, step: Snapshot -> StepResult)
      reads this, Objects, start.Keys
    {
      && States(i, objs, others, start, step, Objects, Snaps(start.Keys), Maps(start.Keys))
      && (forall o | o in Objects && o !in start :: Live(o))
    }

    /** One object's turn (UpdateAt) seen from SweepBucket's loop: it carries
        SweepStates from index i to i - 1. */
    method TakeTurn(c: Cell, i: nat, step: Snapshot -> StepResult, ghost objs: seq<SpaceObject>,
                    ghost others: set<SpaceObject>, ghost start: map<SpaceObject, Snapshot>)
        returns (ghost removed: bool, ghost received: set<Cell>)
      requires Valid() && c in parts && i < |parts[c]| && i < |objs| && parts[c][i] == objs[i]
      requires SweepStates(i, objs, others, start, step)
      modifies this, parts[c][i]
      ensures Valid()
      ensures var obj := objs[i];
        && (removed <==> !Live(obj) || CellOf(obj) != c)
        && Appended(if removed then old(parts)[c := RemoveAt(old(parts[c]), i)] else old(parts),
                    parts, old(Objects) - {obj}, received)
        && old(Objects) - {obj} <= Objects
        && (forall o | o in Objects && o !in old(Objects) :: fresh(o))
      ensures old(parts).Keys <= parts.Keys
      ensures SweepStates(i - 1, objs, others, start, step)
    {
      ghost var obj := objs[i];
      ghost var k0, s0, m0 := Objects, Snaps(start.Keys), Maps(start.Keys);
      removed, received := UpdateAt(c, i, step);
      assert forall o | o in start && o != obj :: Snap(o) == s0[o] && o.Map == m0[o];
      forall o | o in Objects && o !in start
        ensures Live(o)
      {
        if o in k0 { assert o != obj; }
      }
      TurnStates(i, objs, others, start, step, k0, s0, m0);
    }

    /** TakeTurn's step from SweepStates at i to i - 1, stated on the objects
        as they now are against their states s0 and maps m0 before the turn. */
    lemma TurnStates(i: int, objs: seq<SpaceObject>, others: set<SpaceObject>,
                     start: map<SpaceObject, Snapshot>, step: Snapshot -> StepResult,
                     k0: set<SpaceObject>, s0: map<SpaceObject, Snapshot>, m0: map<SpaceObject, object?>)
      requires 0 <= i < |objs| && States(i, objs, others, start, step, k0, s0, m0)
      requires forall o | o in start && o != objs[i] :: Snap(o) == s0[o] && o.Map == m0[o]
      requires LiveFlags(s0[objs[i]].Flags) ==> Snap(objs[i]) == After(s0[objs[i]], step)
      requires !LiveFlags(s0[objs[i]].Flags) ==> Snap(objs[i]) == s0[objs[i]]
      requires Live(objs[i]) ==> objs[i] in Objects
      requires !Live(objs[i]) ==> objs[i] !in Objects && objs[i].Map == null
      requires k0 - {objs[i]} <= Objects
      requires forall o | o in Objects && o !in k0 :: o !in start
      requires forall o | o in Objects && o !in start :: Live(o)
      ensures SweepStates(i - 1, objs, others, start, step)
    {
      StatesStep(i, objs, others, start, step, k0, s0, m0, Objects, Snaps(start.Keys), Maps(start.Keys));
    }

    /** The body of SweepBucket's loop: the object at index i takes its turn. */
    method SweepOne(c: Cell, i: int, step: Snapshot -> StepResult, ghost objs: seq<SpaceObject>,
                    ghost others: set<SpaceObject>, ghost start: map<SpaceObject, Snapshot>,
                    ghost oldParts: map<Cell, seq<SpaceObject>>, ghost received: set<Cell>)
        returns (ghost received': set<Cell>)
      requires 0 <= i && SweepInv(c, i, objs, others, start, oldParts, received, step)
      modifies this, objs[i]
      ensures SweepInv(c, i - 1, objs, others, start, oldParts, received', step)
      ensures forall o | o in Objects :: o in old(Objects) || fresh(o)
    {
      assert parts[c][i] == objs[i];
      ghost var p0, k0 := parts, Objects;
      assert others <= k0 - {objs[i]};
      ghost var removed, recv := TakeTurn(c, i, step, objs, others, start);
      TurnBookkeeping(c, i, objs, others, oldParts, p0, parts, k0, received, recv, removed);
      received' := received + recv;
    }

    /** One object's turn in the sweep of Map.Update (Map.cs:114-128): a live
        object is updated (its new state and spawns given by `step`); then a
        dead object leaves the map, and a live one that now stands in another
        cell moves to the end of that cell's bucket. `removed` says whether it
        left bucket c at index i. */
    method UpdateAt(c: Cell, i: nat, step: Snapshot -> StepResult)
        returns (ghost removed: bool, ghost received: set<Cell>)
      requires Valid() && c in parts && i < |parts[c]|
      modifies this, parts[c][i]
      ensures Valid()
      ensures var obj := old(parts[c][i]);
        && (old(Live(obj)) ==>
              var r := step(old(Snap(obj)));
              obj.Pos == r.Pos && obj.Angle == r.Angle && obj.Flags == r.Flags)
        && (old(!Live(obj)) ==> obj.Pos == old(obj.Pos) && obj.Angle == old(obj.Angle) && obj.Flags == old(obj.Flags))
        && (Live(obj) ==> obj in Objects)
        && (!Live(obj) ==> obj !in Objects && obj.Map == null)
        && (removed <==> !Live(obj) || CellOf(obj) != c)
        && Appended(if removed then old(parts)[c := RemoveAt(old(parts[c]), i)] else old(parts),
                    parts, old(Objects) - {obj}, received)
        && old(Objects) - {obj} <= Objects
        && (forall o | o in Objects && o !in old(Objects) :: fresh(o) && Live(o))
      ensures old(parts).Keys <= parts.Keys
    {
      var obj := parts[c][i];
      received := {};
      if Live(obj) {
        var spawned := StepObject(c, i, step);
        received := AddSpawned(spawned, obj);
      } else {
        AppendedRefl(parts, Objects);
      }
      ghost var p1, r1 := parts, received;
      ghost var np;
      removed, np := Settle(c, i);
      if removed {
        AppendedRemoveAt(old(parts), p1, old(Objects), r1, c, i);
        if Live(obj) {
          AppendedStep(old(parts)[c := RemoveAt(old(parts[c]), i)], p1[c := RemoveAt(p1[c], i)], parts,
                       old(Objects) - {obj}, r1, np, obj);
          received := received + {np};
        }
      } else {
        AppendedShrink(old(parts), parts, old(Objects), received, obj);
      }
    }

    /** An object's own Update, as `step` gives it: its new position, heading
        and flags. Meanwhile it may stand outside its bucket's cell. */
    method StepObject(c: Cell, i: nat, step: Snapshot -> StepResult) returns (spawned: seq<Spawn>)
      requires Valid() && c in parts && i < |parts[c]|
      modifies parts[c][i]
      ensures var obj := parts[c][i];
        var r := step(old(Snap(obj)));
        obj.Pos == r.Pos && obj.Angle == r.Angle && obj.Flags == r.Flags && obj.Map == old(obj.Map) &&
        spawned == r.Spawned
      ensures Inv(parts[c][i]) && parts[c][i] in Objects
    {
      var obj := parts[c][i];
      var r := step(Snap(obj));
      obj.Pos, obj.Angle, obj.Flags := r.Pos, r.Angle, r.Flags;
      spawned := r.Spawned;
      forall d, k | d in parts && 0 <= k < |parts[d]| && parts[d][k] != obj
        ensures CellOf(parts[d][k]) == d
      {
        assert old(CellOf(parts[d][k])) == d;
      }
    }

    /** The second half of an object's turn in the sweep (Map.cs:118-128): the
        object at index i of bucket c, which may have moved, leaves the map when
        dead, moves to the end of its new cell's bucket when it changed cell,
        and otherwise stays. */
    method Settle(c: Cell, i: nat) returns (removed: bool, ghost np: Cell)
      requires c in parts && i < |parts[c]| && Inv(parts[c][i])
      modifies this, (parts[c][i] as SpaceObject)`Map
      ensures Valid()
      ensures var obj := old(parts[c][i]);
        && np == CellOf(obj)
        && obj.Pos == old(obj.Pos) && obj.Angle == old(obj.Angle) && obj.Flags == old(obj.Flags)
        && (Live(obj) ==> obj in Objects && Objects == old(Objects))
        && (!Live(obj) ==> obj !in Objects && obj.Map == null && Objects == old(Objects) - {obj})
        && (removed <==> !Live(obj) || np != c)
        && (!removed ==> parts == old(parts))
        && (removed && !Live(obj) ==> parts == old(parts)[c := RemoveAt(old(parts[c]), i)])
        && (removed && Live(obj) ==>
              var q := old(parts)[c := RemoveAt(old(parts[c]), i)];
              parts == q[np := (if np in q then q[np] else []) + [obj]])
    {
      var obj := parts[c][i];
      np := CellOf(obj);
      if !Live(obj) {
        Drop(c, i);
        removed := true;
      } else {
        var npart := WorldToPart(obj.Pos.X, obj.Pos.Y);
        if npart != c {
          Relocate(c, i);
          removed := true;
        } else {
          removed := false;
        }
      }
    }

    /** A dead object leaves its bucket and the map (Map.cs:118-121). */
    method Drop(c: Cell, i: nat)
      requires c in parts && i < |parts[c]| && Inv(parts[c][i])
      modifies this, (parts[c][i] as SpaceObject)`Map
      ensures Valid()
      ensures var obj := old(parts[c][i]);
        obj.Map == null && Objects == old(Objects) - {obj} &&
        parts == old(parts)[c := RemoveAt(old(parts[c]), i)]
    {
      var obj := parts[c][i];
      RemoveMoving(this, parts, Objects, c, i);
      parts := parts[c := RemoveAt(parts[c], i)];
      Objects := Objects - {obj};
      obj.Map := null;
    }

    /** A live object that changed cell moves to the end of its new cell's
        bucket (Map.cs:123-127). */
    method Relocate(c: Cell, i: nat)
      requires c in parts && i < |parts[c]| && Inv(parts[c][i])
      requires parts[c][i] in Objects && CellOf(parts[c][i]) != c
      modifies this`parts
      ensures Valid()
      ensures var obj := old(parts[c][i]);
        var q := old(parts)[c := RemoveAt(old(parts[c]), i)];
        parts == q[CellOf(obj) := (if CellOf(obj) in q then q[CellOf(obj)] else []) + [obj]]
    {
      ghost var p0 := parts;
      var obj := parts[c][i];
      parts := parts[c := RemoveAt(parts[c], i)];
      ghost var q := parts;
      var npart := WorldToPart(obj.Pos.X, obj.Pos.Y);
      var list := MakeObjects(npart);
      parts := parts[npart := list + [obj]];
      assert parts == q[npart := (if npart in q then q[npart] else []) + [obj]];
      RelocateMoving(this, p0, Objects, c, i);
    }
  }

  /** CollideBucket on `objs`, all of them among the objects `known`, with
      what it did recorded as a Check: the turn BucketRef describes, from the
      states of `known` before it to their states after. */
  method CollideChecked(objs: seq<SpaceObject>, collided: (Snapshot, Snapshot) -> bool,
                        hit: (Snapshot, Snapshot) -> HitEffect, ghost known: set<SpaceObject>)
      returns (sorted: seq<SpaceObject>, ghost ch: Check)
    requires forall k | 0 <= k < |objs| :: objs[k] in known
    requires forall p, q | 0 <= p < q < |objs| :: objs[p] != objs[q]
    modifies (set o | o in objs)`Flags
    ensures SortedByClass(sorted) && multiset(sorted) == multiset(objs)
    ensures OnlyKilled(objs)
    ensures Follows(ch, collided, hit)
    ensures CheckedPairs(sorted, ch, Snaps(known)) && StartedFrom(ch, old(Snaps(known)))
  {
    ghost var s0 := Snaps(known);
    ghost var noHit, active, before, tested;
    sorted, noHit, active, before, tested := CollideBucket(objs, collided, hit);
    ch := Check(active, before, SnapsOf(active), tested);
    ghost var s1 := Snaps(known);
    forall k | 0 <= k < |active|
      ensures active[k] in s0 && s0[active[k]] == before[k]
      ensures active[k] in s1 && s1[active[k]] == ch.After[k]
    {
      assert active[k] in active;
      var i :| 0 <= i < |objs| && objs[i] == active[k];
    }
    CheckOf(sorted, noHit, ch, collided, hit, s0, s1);
  }

  /** The state of each of the objects `keys`. */
  function Snaps(keys: set<SpaceObject>): (m: map<SpaceObject, Snapshot>)
    reads keys
    ensures m.Keys == keys && forall o | o in keys :: m[o] == Snap(o)
  {
    map o | o in keys :: Snap(o)
  }

  /** The map each of the objects `keys` is on. */
  function Maps(keys: set<SpaceObject>): (m: map<SpaceObject, object?>)
    reads keys
    ensures m.Keys == keys && forall o | o in keys :: m[o] == o.Map
  {
    map o | o in keys :: o.Map
  }

  /** Where SweepBucket stands before the object at index i of `objs` (the
      bucket as it was) takes its turn, given the objects on the map, and the
      state and map of each object of `start` (every object's state when the
      sweep of the bucket began). `others` are the objects of other buckets:
      they keep their state; the objects after index i have had their turn
      (a live one was stepped once, a dead one left the map); those up to i
      have not; and any dead object on the map was dead from the start. */
  ghost predicate States(i: int, objs: seq<SpaceObject>, others: set<SpaceObject>,
                         start: map<SpaceObject, Snapshot>, step: Snapshot -> StepResult,
                         objects: set<SpaceObject>, snaps: map<SpaceObject, Snapshot>,
                         maps: map<SpaceObject, object?>)
  {
    && others <= start.Keys && snaps.Keys == start.Keys && maps.Keys == start.Keys
    && (forall k | 0 <= k < |objs| :: objs[k] in start && objs[k] !in others)
    && (forall k, j | 0 <= k < j < |objs| :: objs[k] != objs[j])
    && (forall o | o in others :: o in objects && snaps[o] == start[o])
    && (forall o | o in objects && o in start && o !in others && !LiveFlags(snaps[o].Flags) ::
          !LiveFlags(start[o].Flags) && snaps[o] == start[o])
    && (forall k | 0 <= k <= i && k < |objs| :: objs[k] in objects && snaps[objs[k]] == start[objs[k]])
    && (forall k | i < k < |objs| && 0 <= k :: var o := objs[k];
          && (LiveFlags(start[o].Flags) ==> snaps[o] == After(start[o], step))
          && (!LiveFlags(start[o].Flags) ==> o !in objects && maps[o] == null && snaps[o] == start[o])
          && (o !in objects ==> !LiveFlags(snaps[o].Flags) && maps[o] == null))
  }

  /** The object at index i taking its turn (from objects k0, states s0 and
      maps m0 to k1, s1, m1) carries States from i to i - 1. */
  lemma StatesStep(i: int, objs: seq<SpaceObject>, others: set<SpaceObject>,
                   start: map<SpaceObject, Snapshot>, step: Snapshot -> StepResult,
                   k0: set<SpaceObject>, s0: map<SpaceObject, Snapshot>, m0: map<SpaceObject, object?>,
                   k1: set<SpaceObject>, s1: map<SpaceObject, Snapshot>, m1: map<SpaceObject, object?>)
    requires 0 <= i < |objs| && States(i, objs, others, start, step, k0, s0, m0)
    requires s1.Keys == start.Keys && m1.Keys == start.Keys
    requires forall o | o in start && o != objs[i] :: s1[o] == s0[o] && m1[o] == m0[o]
    requires LiveFlags(s0[objs[i]].Flags) ==> s1[objs[i]] == After(s0[objs[i]], step)
    requires !LiveFlags(s0[objs[i]].Flags) ==> s1[objs[i]] == s0[objs[i]]
    requires LiveFlags(s1[objs[i]].Flags) ==> objs[i] in k1
    requires !LiveFlags(s1[objs[i]].Flags) ==> objs[i] !in k1 && m1[objs[i]] == null
    requires k0 - {objs[i]} <= k1
    requires forall o | o in k1 && o in start && o != objs[i] :: o in k0
    ensures States(i - 1, objs, others, start, step, k1, s1, m1)
  {
  }

  /** The grid invariant of map m with buckets p and objects objs, except that
      `moving` (when not null) may stand outside the cell of its bucket. */
  ghost predicate GridInv(m: object, p: map<Cell, seq<SpaceObject>>, objs: set<SpaceObject>, moving: SpaceObject?)
    reads objs`Map, objs`Pos
  {
    Placed(m, p, objs, moving) && NoRepeats(p) && Bucketed(p, objs, moving)
  }

  /** Every bucketed object is on m, in the bucket of the cell it stands in
      (`moving` excepted). */
  ghost predicate Placed(m: object, p: map<Cell, seq<SpaceObject>>, objs: set<SpaceObject>, moving: SpaceObject?)
    reads objs`Map, objs`Pos
  {
    forall c, i | c in p && 0 <= i < |p[c]| ::
      p[c][i] in objs && p[c][i].Map == m &&
      (p[c][i] != moving ==> CellOf(p[c][i]) == c)
  }

  /** No object is held at two places of the buckets. */
  ghost predicate NoRepeats(p: map<Cell, seq<SpaceObject>>)
  {
    forall c, d, i, j | c in p && d in p && 0 <= i < |p[c]| && 0 <= j < |p[d]| && p[c][i] == p[d][j] ::
      c == d && i == j
  }

  /** Every object on the map (`moving` excepted) is in the bucket of its cell. */
  ghost predicate Bucketed(p: map<Cell, seq<SpaceObject>>, objs: set<SpaceObject>, moving: SpaceObject?)
    reads objs`Pos
  {
    forall o {:trigger CellOf(o)} | o in objs && o != moving :: CellOf(o) in p && o in p[CellOf(o)]
  }

  /** Once every key is visited, the visited cells are all the cells. */
  /** Visiting keys[pi] next keeps `visited` the set of the first keys. */
  lemma VisitNext(keys: seq<Cell>, pi: nat, visited: set<Cell>)
    requires pi < |keys| && forall k, j | 0 <= k < j < |keys| :: keys[k] != keys[j]
    requires forall j | 0 <= j < |keys| :: keys[j] in visited <==> j < pi
    ensures keys[pi] !in visited
    ensures forall j | 0 <= j < |keys| :: keys[j] in visited + {keys[pi]} <==> j < pi + 1
  {
  }

  lemma AllVisited(keys: seq<Cell>, visited: set<Cell>, cells: set<Cell>)
    requires forall c :: c in keys <==> c in cells
    requires visited <= cells && forall j | 0 <= j < |keys| :: keys[j] in visited
    ensures visited == cells
  {
  }

  /** The buckets of the cells `cells` are sorted by hit class. */
  ghost predicate SortedCells(p: map<Cell, seq<SpaceObject>>, cells: set<Cell>)
  {
    forall c | c in cells && c in p :: SortedByClass(p[c])
  }

  /** What one bucket's turn in the collision pass did: `Active` is the
      sorted bucket without the NoHit objects at its front, `Before` and
      `After` the states of those objects when the turn began and when it
      ended, and `Tested` the pairs of indices into Active handed to
      Collided, in order. */
  datatype Check = Check(Active: seq<SpaceObject>, Before: seq<Snapshot>, After: seq<Snapshot>,
                         Tested: seq<(int, int)>)

  /** The turn recorded by ch is the one the three CheckCollisions calls
      make (BucketRef): from the states Before, they end in the states After,
      having tested the pairs Tested. (The states are bound by the
      quantifier so that BucketRef is only unfolded where a proof names it.) */
  ghost predicate Follows(ch: Check, collided: (Snapshot, Snapshot) -> bool,
                          hit: (Snapshot, Snapshot) -> HitEffect)
  {
    && |ch.Before| == |ch.Active|
    && forall before | before == ch.Before :: BucketRef(ch.Active, before, collided, hit) == Pass(ch.After, ch.Tested)
  }

  /** Recording one more turn that Follows BucketRef keeps AllFollow. */
  lemma FollowsAdded(checks: map<Cell, Check>, c: Cell, ch: Check,
                     collided: (Snapshot, Snapshot) -> bool, hit: (Snapshot, Snapshot) -> HitEffect)
    requires AllFollow(checks, collided, hit) && Follows(ch, collided, hit)
    ensures AllFollow(checks[c := ch], collided, hit)
  {
  }

  /** Every turn recorded in `checks` Follows BucketRef. */
  ghost predicate AllFollow(checks: map<Cell, Check>, collided: (Snapshot, Snapshot) -> bool,
                            hit: (Snapshot, Snapshot) -> HitEffect)
  {
    forall c | c in checks :: Follows(checks[c], collided, hit)
  }

  /** Check ch describes the turn of the sorted bucket `bucket`, the objects'
      states now being `now`: the objects before Active are the NoHit ones;
      After is the active objects' states now; each tested pair holds objects
      of two different tiers, lower first; no pair is tested twice; and every
      such pair of objects still live was tested. */
  ghost predicate CheckedPairs(bucket: seq<SpaceObject>, ch: Check, now: map<SpaceObject, Snapshot>)
  {
    && |ch.Active| <= |bucket| && ch.Active == bucket[|bucket| - |ch.Active|..]
    && (forall k | 0 <= k < |bucket| - |ch.Active| :: bucket[k].HitClass == NoHit)
    && Active(ch.Active)
    && |ch.After| == |ch.Active|
    && (forall k | 0 <= k < |ch.Active| :: ch.Active[k] in now && now[ch.Active[k]] == ch.After[k])
    && TestedPairs(ch)
  }

  /** Each pair ch tested holds objects of two different tiers, lower first;
      no pair is tested twice; and every such pair of objects live in After
      was tested. */
  ghost predicate TestedPairs(ch: Check)
  {
    && (forall t | t in ch.Tested ::
          0 <= t.0 < t.1 < |ch.Active| && Rank(ch.Active[t.0].HitClass) < Rank(ch.Active[t.1].HitClass))
    && (forall p, q | 0 <= p < q < |ch.Tested| :: ch.Tested[p] != ch.Tested[q])
    && (forall i, j | 0 <= i < j < |ch.Active| && i < |ch.After| && j < |ch.After| &&
          Rank(ch.Active[i].HitClass) < Rank(ch.Active[j].HitClass) &&
          LiveFlags(ch.After[i].Flags) && LiveFlags(ch.After[j].Flags) :: (i, j) in ch.Tested)
  }

  /** The turn ch describes began from the states `before`, and both objects
      of every pair it tested were live then. */
  ghost predicate StartedFrom(ch: Check, before: map<SpaceObject, Snapshot>)
  {
    && |ch.Before| == |ch.Active|
    && (forall k | 0 <= k < |ch.Active| :: ch.Active[k] in before && before[ch.Active[k]] == ch.Before[k])
    && (forall t | t in ch.Tested && 0 <= t.0 < |ch.Active| && 0 <= t.1 < |ch.Active| ::
          LiveFlags(ch.Before[t.0].Flags) && LiveFlags(ch.Before[t.1].Flags))
  }

  /** Where the collision pass stands with the buckets `p` once the cells
      `visited` have had their turn: checks[c] describes the turn of each
      visited cell, against the flags `now`, and every pair it tested was live
      by the flags `snaps0` the pass began with; the objects of the cells not
      yet visited still have those flags. */
  ghost predicate ChecksDone(visited: set<Cell>, p: map<Cell, seq<SpaceObject>>, checks: map<Cell, Check>,
                             snaps0: map<SpaceObject, Snapshot>, now: map<SpaceObject, Snapshot>)
  {
    && checks.Keys == visited && visited <= p.Keys
    && CellsChecked(visited, p, checks, snaps0, now)
    && Unvisited(visited, p, snaps0, now)
  }

  /** checks[c] describes the turn of each cell c of `cells`. */
  ghost predicate CellsChecked(cells: set<Cell>, p: map<Cell, seq<SpaceObject>>, checks: map<Cell, Check>,
                               snaps0: map<SpaceObject, Snapshot>, now: map<SpaceObject, Snapshot>)
  {
    forall c | c in cells && c in p && c in checks ::
      CheckedPairs(p[c], checks[c], now) && StartedFrom(checks[c], snaps0)
  }

  /** The objects of the cells not visited have their flags `snaps0`. */
  ghost predicate Unvisited(visited: set<Cell>, p: map<Cell, seq<SpaceObject>>,
                            snaps0: map<SpaceObject, Snapshot>, now: map<SpaceObject, Snapshot>)
  {
    forall c, k | c in p && c !in visited && 0 <= k < |p[c]| ::
      p[c][k] in now && p[c][k] in snaps0 && now[p[c][k]] == snaps0[p[c][k]]
  }

  /** A turn that Follows BucketRef over the active part of a sorted
      bucket, read against the states `before` it began from and `now`:
      TiersRefFacts says which pairs it tested. */
  lemma CheckOf(sorted: seq<SpaceObject>, noHit: nat, ch: Check,
                collided: (Snapshot, Snapshot) -> bool, hit: (Snapshot, Snapshot) -> HitEffect,
                before: map<SpaceObject, Snapshot>, now: map<SpaceObject, Snapshot>)
    requires SortedByClass(sorted) && noHit <= |sorted| && ch.Active == sorted[noHit..]
    requires forall k | 0 <= k < noHit :: sorted[k].HitClass == NoHit
    requires Active(ch.Active) && Follows(ch, collided, hit)
    requires forall k | 0 <= k < |ch.Active| :: ch.Active[k] in before && before[ch.Active[k]] == ch.Before[k]
    requires |ch.After| == |ch.Active|
    requires forall k | 0 <= k < |ch.Active| :: ch.Active[k] in now && now[ch.Active[k]] == ch.After[k]
    ensures CheckedPairs(sorted, ch, now) && StartedFrom(ch, before)
  {
    SortedSuffix(sorted, noHit);
    StartedOf(ch, collided, hit, before);
    TestedOf(ch, collided, hit);
  }

  /** A turn that Follows BucketRef over sorted active objects tested the
      pairs TestedPairs describes. */
  lemma TestedOf(ch: Check, collided: (Snapshot, Snapshot) -> bool, hit: (Snapshot, Snapshot) -> HitEffect)
    requires SortedByClass(ch.Active) && Active(ch.Active) && Follows(ch, collided, hit)
    ensures TestedPairs(ch)
  {
    var act := ch.Active;
    var missile := if Boundary(act, 2) > 0 then Boundary(act, 1) else |act|;
    var ship := if Boundary(act, 3) > 0 then Boundary(act, 2) else |act|;
    var planet := if |act| > 0 then Boundary(act, 3) else -1;
    assert BucketRef(act, ch.Before, collided, hit) == Pass(ch.After, ch.Tested);
    assert TiersRef(ch.Before, missile, ship, planet, collided, hit) == Pass(ch.After, ch.Tested);
    TiersTestedLive(act, ch.Before, missile, ship, planet, collided, hit);
    TiersNoRepeat(act, ch.Before, missile, ship, planet, collided, hit);
    TiersAllTested(act, ch.Before, missile, ship, planet, collided, hit);
  }

  /** A turn that Follows BucketRef over sorted active objects began from
      the states `before` its Before records, and both objects of every
      pair it tested were live then. */
  lemma StartedOf(ch: Check, collided: (Snapshot, Snapshot) -> bool, hit: (Snapshot, Snapshot) -> HitEffect,
                  before: map<SpaceObject, Snapshot>)
    requires SortedByClass(ch.Active) && Active(ch.Active) && Follows(ch, collided, hit)
    requires forall k | 0 <= k < |ch.Active| :: ch.Active[k] in before && before[ch.Active[k]] == ch.Before[k]
    ensures StartedFrom(ch, before)
  {
    var act := ch.Active;
    var missile := if Boundary(act, 2) > 0 then Boundary(act, 1) else |act|;
    var ship := if Boundary(act, 3) > 0 then Boundary(act, 2) else |act|;
    var planet := if |act| > 0 then Boundary(act, 3) else -1;
    assert BucketRef(act, ch.Before, collided, hit) == Pass(ch.After, ch.Tested);
    assert TiersRef(ch.Before, missile, ship, planet, collided, hit) == Pass(ch.After, ch.Tested);
    TiersTestedLive(act, ch.Before, missile, ship, planet, collided, hit);
  }

  /** Objects in two different buckets are different objects. */
  lemma BucketsDisjoint(p: map<Cell, seq<SpaceObject>>, c: Cell, d: Cell)
    requires NoRepeats(p) && c in p && d in p && c != d
    ensures forall o | o in p[c] :: o !in p[d]
  {
    forall o | o in p[c]
      ensures o !in p[d]
    {
      var i :| 0 <= i < |p[c]| && p[c][i] == o;
      forall j | 0 <= j < |p[d]|
        ensures p[d][j] != o
      {
      }
    }
  }

  /** CheckedPairs looks only at the flags of the bucket's objects. */
  lemma CheckedFrame(bucket: seq<SpaceObject>, ch: Check, f0: map<SpaceObject, Snapshot>,
                     f1: map<SpaceObject, Snapshot>)
    requires CheckedPairs(bucket, ch, f0)
    requires forall k | 0 <= k < |bucket| :: bucket[k] in f0 && bucket[k] in f1 && f1[bucket[k]] == f0[bucket[k]]
    ensures CheckedPairs(bucket, ch, f1)
  {
    forall k | 0 <= k < |ch.Active|
      ensures ch.Active[k] in f1 && f1[ch.Active[k]] == f0[ch.Active[k]]
    {
      assert ch.Active[k] == bucket[|bucket| - |ch.Active| + k];
    }
  }

  /** No bucket is visited before the collision pass begins. */
  lemma ChecksStart(p: map<Cell, seq<SpaceObject>>, snaps0: map<SpaceObject, Snapshot>)
    requires forall c, k | c in p && 0 <= k < |p[c]| :: p[c][k] in snaps0
    ensures ChecksDone({}, p, map[], snaps0, snaps0)
  {
  }

  /** Cell d's turn, from buckets p0 and flags f0 to p1 and f1, described by
      ch: it touched only the flags of d's objects, which until then had
      their starting flags, so the other cells' checks still hold and d's
      tested pairs were live when the pass began. */
  lemma {:induction false} CheckStep(visited: set<Cell>, p0: map<Cell, seq<SpaceObject>>,
                                     p1: map<Cell, seq<SpaceObject>>, checks: map<Cell, Check>, ch: Check,
                                     d: Cell, snaps0: map<SpaceObject, Snapshot>,
                                     f0: map<SpaceObject, Snapshot>, f1: map<SpaceObject, Snapshot>)
    requires ChecksDone(visited, p0, checks, snaps0, f0) && d in p0 && d !in visited && p1.Keys == p0.Keys
    requires forall c | c in p0 && c != d :: p1[c] == p0[c]
    requires multiset(p1[d]) == multiset(p0[d])
    requires OthersKept(p0, d, f0, f1)
    requires CheckedPairs(p1[d], ch, f1) && StartedFrom(ch, f0)
    ensures ChecksDone(visited + {d}, p1, checks[d := ch], snaps0, f1)
  {
    CellsCheckedStep(visited, p0, p1, checks, ch, d, snaps0, f0, f1);
    UnvisitedStep(visited, p0, p1, d, snaps0, f0, f1);
    VisitedKeys(visited, checks, ch, d, p0.Keys, p1.Keys);
  }

  /** Recording cell d's check adds d to the cells checked. */
  lemma VisitedKeys(visited: set<Cell>, checks: map<Cell, Check>, ch: Check, d: Cell,
                    cells0: set<Cell>, cells1: set<Cell>)
    requires checks.Keys == visited && visited <= cells0 && d in cells0 && cells1 == cells0
    ensures checks[d := ch].Keys == visited + {d} && visited + {d} <= cells1
  {
  }

  /** The CellsChecked part of CheckStep. */
  lemma CellsCheckedStep(visited: set<Cell>, p0: map<Cell, seq<SpaceObject>>,
                         p1: map<Cell, seq<SpaceObject>>, checks: map<Cell, Check>, ch: Check,
                         d: Cell, snaps0: map<SpaceObject, Snapshot>,
                         f0: map<SpaceObject, Snapshot>, f1: map<SpaceObject, Snapshot>)
    requires ChecksDone(visited, p0, checks, snaps0, f0) && d in p0 && d !in visited && p1.Keys == p0.Keys
    requires forall c | c in p0 && c != d :: p1[c] == p0[c]
    requires multiset(p1[d]) == multiset(p0[d])
    requires OthersKept(p0, d, f0, f1)
    requires CheckedPairs(p1[d], ch, f1) && StartedFrom(ch, f0)
    ensures CellsChecked(visited + {d}, p1, checks[d := ch], snaps0, f1)
  {
    StartedAtPassStart(p0, p1, d, ch, visited, snaps0, f0, f1);
    var checks' := checks[d := ch];
    forall c | c in visited + {d} && c in p1 && c in checks'
      ensures CheckedPairs(p1[c], checks'[c], f1) && StartedFrom(checks'[c], snaps0)
    {
      if c != d {
        assert checks'[c] == checks[c];
        CheckedFrame(p0[c], checks[c], f0, f1);
      }
    }
  }

  /** Cell d's turn keeps Unvisited for the cells after it. */
  lemma UnvisitedStep(visited: set<Cell>, p0: map<Cell, seq<SpaceObject>>, p1: map<Cell, seq<SpaceObject>>,
                      d: Cell, snaps0: map<SpaceObject, Snapshot>,
                      f0: map<SpaceObject, Snapshot>, f1: map<SpaceObject, Snapshot>)
    requires Unvisited(visited, p0, snaps0, f0) && d in p0 && p1.Keys == p0.Keys
    requires forall c | c in p0 && c != d :: p1[c] == p0[c]
    requires OthersKept(p0, d, f0, f1)
    ensures Unvisited(visited + {d}, p1, snaps0, f1)
  {
  }

  /** The objects of the buckets other than d's have the same flags in f1 as
      in f0. */
  ghost predicate OthersKept(p0: map<Cell, seq<SpaceObject>>, d: Cell,
                             f0: map<SpaceObject, Snapshot>, f1: map<SpaceObject, Snapshot>)
  {
    forall c, k | c in p0 && c != d && 0 <= k < |p0[c]| ::
      p0[c][k] in f0 && p0[c][k] in f1 && f1[p0[c][k]] == f0[p0[c][k]]
  }

  /** When only objects of d's bucket can have changed their flags, and no
      object is in two buckets, the other buckets' objects kept theirs. */
  lemma OthersKeptOf(p0: map<Cell, seq<SpaceObject>>, d: Cell,
                     f0: map<SpaceObject, Snapshot>, f1: map<SpaceObject, Snapshot>)
    requires NoRepeats(p0) && d in p0
    requires forall c, k | c in p0 && 0 <= k < |p0[c]| :: p0[c][k] in f0
    requires forall o | o in f0 && o !in p0[d] :: o in f1 && f1[o] == f0[o]
    ensures OthersKept(p0, d, f0, f1)
  {
    forall c | c in p0 && c != d
      ensures forall k | 0 <= k < |p0[c]| :: p0[c][k] in f0 && p0[c][k] in f1 && f1[p0[c][k]] == f0[p0[c][k]]
    {
      OtherBucketKept(p0, c, d, f0, f1);
    }
  }

  /** Cell d's turn leaves the flags of another bucket's objects alone. */
  lemma OtherBucketKept(p0: map<Cell, seq<SpaceObject>>, c: Cell, d: Cell,
                        f0: map<SpaceObject, Snapshot>, f1: map<SpaceObject, Snapshot>)
    requires NoRepeats(p0) && c in p0 && d in p0 && c != d
    requires forall k | 0 <= k < |p0[c]| :: p0[c][k] in f0
    requires forall o | o in f0 && o !in p0[d] :: o in f1 && f1[o] == f0[o]
    ensures forall k | 0 <= k < |p0[c]| :: p0[c][k] in f0 && p0[c][k] in f1 && f1[p0[c][k]] == f0[p0[c][k]]
  {
    BucketsDisjoint(p0, c, d);
  }

  /** Cell d's turn began from the states the pass began with. */
  lemma StartedAtPassStart(p0: map<Cell, seq<SpaceObject>>, p1: map<Cell, seq<SpaceObject>>, d: Cell, ch: Check,
                          visited: set<Cell>, snaps0: map<SpaceObject, Snapshot>,
                          f0: map<SpaceObject, Snapshot>, f1: map<SpaceObject, Snapshot>)
    requires d in p0 && d !in visited && p1.Keys == p0.Keys && multiset(p1[d]) == multiset(p0[d])
    requires Unvisited(visited, p0, snaps0, f0)
    requires CheckedPairs(p1[d], ch, f1) && StartedFrom(ch, f0)
    ensures StartedFrom(ch, snaps0)
  {
    forall k | 0 <= k < |ch.Active|
      ensures ch.Active[k] in snaps0 && snaps0[ch.Active[k]] == ch.Before[k]
    {
      StartSnap(p0, p1, d, ch, visited, snaps0, f0, k);
    }
  }

  /** An active object of cell d's turn had its starting state when the turn
      began. */
  lemma StartSnap(p0: map<Cell, seq<SpaceObject>>, p1: map<Cell, seq<SpaceObject>>, d: Cell, ch: Check,
                   visited: set<Cell>, snaps0: map<SpaceObject, Snapshot>, f0: map<SpaceObject, Snapshot>, i: int)
    requires d in p0 && d in p1 && d !in visited && multiset(p1[d]) == multiset(p0[d])
    requires forall c, k | c in p0 && c !in visited && 0 <= k < |p0[c]| ::
      p0[c][k] in f0 && p0[c][k] in snaps0 && f0[p0[c][k]] == snaps0[p0[c][k]]
    requires |ch.Active| <= |p1[d]| && ch.Active == p1[d][|p1[d]| - |ch.Active|..] && 0 <= i < |ch.Active|
    ensures ch.Active[i] in f0 && ch.Active[i] in snaps0 && f0[ch.Active[i]] == snaps0[ch.Active[i]]
  {
    var o := ch.Active[i];
    assert o == p1[d][|p1[d]| - |ch.Active| + i];
    assert o in multiset(p0[d]);
    var k :| 0 <= k < |p0[d]| && p0[d][k] == o;
  }

  /** Sorting the bucket of one more cell, leaving the others as they are. */
  lemma SortedCellsStep(p0: map<Cell, seq<SpaceObject>>, p1: map<Cell, seq<SpaceObject>>,
                        cells: set<Cell>, c: Cell)
    requires SortedCells(p0, cells) && c in p1 && SortedByClass(p1[c])
    requires p1.Keys == p0.Keys && forall d | d in p1 && d != c :: p1[d] == p0[d]
    ensures SortedCells(p1, cells + {c})
  {
  }

  /** The invariant with no moving object implies it for any moving object. */
  lemma InvRelax(m: object, p: map<Cell, seq<SpaceObject>>, objs: set<SpaceObject>, moving: SpaceObject)
    requires GridInv(m, p, objs, null)
    ensures GridInv(m, p, objs, moving)
  {
  }

  /** Reordering one bucket (as sorting it does) keeps the invariant. */
  lemma PermuteBucket(m: object, p: map<Cell, seq<SpaceObject>>, objs: set<SpaceObject>,
                      c: Cell, s: seq<SpaceObject>)
    requires GridInv(m, p, objs, null) && c in p && multiset(s) == multiset(p[c])
    ensures GridInv(m, p[c := s], objs, null)
  {
    PermutePlaced(m, p, objs, c, s);
    PermuteNoRepeats(p, c, s);
    PermuteBucketed(p, objs, c, s);
  }

  lemma PermutePlaced(m: object, p: map<Cell, seq<SpaceObject>>, objs: set<SpaceObject>,
                      c: Cell, s: seq<SpaceObject>)
    requires Placed(m, p, objs, null) && c in p && multiset(s) == multiset(p[c])
    ensures Placed(m, p[c := s], objs, null)
  {
    forall i | 0 <= i < |s|
      ensures exists k :: 0 <= k < |p[c]| && p[c][k] == s[i]
    {
      assert s[i] in multiset(p[c]);
    }
  }

  lemma PermuteNoRepeats(p: map<Cell, seq<SpaceObject>>, c: Cell, s: seq<SpaceObject>)
    requires NoRepeats(p) && c in p && multiset(s) == multiset(p[c])
    ensures NoRepeats(p[c := s])
  {
    assert forall k, j | 0 <= k < j < |p[c]| :: p[c][k] != p[c][j];
    DistinctPerm(s, p[c]);
    forall i | 0 <= i < |s|
      ensures exists k :: 0 <= k < |p[c]| && p[c][k] == s[i]
    {
      assert s[i] in multiset(p[c]);
    }
  }

  lemma PermuteBucketed(p: map<Cell, seq<SpaceObject>>, objs: set<SpaceObject>,
                        c: Cell, s: seq<SpaceObject>)
    requires Bucketed(p, objs, null) && c in p && multiset(s) == multiset(p[c])
    ensures Bucketed(p[c := s], objs, null)
  {
    forall o | o in p[c]
      ensures o in s
    {
      assert o in multiset(s);
    }
  }


  /** Appending an object that is not yet on the map to the bucket of its
      cell keeps the invariant. */
  lemma AddToGrid(m: object, p: map<Cell, seq<SpaceObject>>, objs: set<SpaceObject>,
                  moving: SpaceObject?, obj: SpaceObject)
    requires GridInv(m, p, objs, moving) && obj !in objs && obj != moving && obj.Map == m
    ensures var c := CellOf(obj);
      GridInv(m, p[c := (if c in p then p[c] else []) + [obj]], objs + {obj}, moving)
  {
    var c := CellOf(obj);
    var r := p[c := (if c in p then p[c] else []) + [obj]];
    forall d, k | d in r && 0 <= k < |r[d]|
      ensures r[d][k] == if d == c && k == |r[d]| - 1 then obj else p[d][k]
    {
    }
    assert Placed(m, r, objs + {obj}, moving);
    assert NoRepeats(r);
    assert r[c][|r[c]| - 1] == obj;
  }

  /** Taking a dead moving object out of its bucket restores the invariant. */
  lemma RemoveMoving(m: object, p: map<Cell, seq<SpaceObject>>, objs: set<SpaceObject>, c: Cell, i: nat)
    requires c in p && i < |p[c]| && GridInv(m, p, objs, p[c][i])
    ensures GridInv(m, p[c := RemoveAt(p[c], i)], objs - {p[c][i]}, null)
  {
    var obj := p[c][i];
    var q := p[c := RemoveAt(p[c], i)];
    forall d, k | d in q && 0 <= k < |q[d]|
      ensures q[d][k] == p[d][if d == c && k >= i then k + 1 else k]
    {
    }
    RemovePlaced(m, p, q, objs, c, i);
    assert NoRepeats(q);
    RemoveBucketed(p, q, objs, c, i);
  }

  /** After taking index i out of bucket c, the objects left are placed as
      before and none of them is the one taken out. */
  lemma RemovePlaced(m: object, p: map<Cell, seq<SpaceObject>>, q: map<Cell, seq<SpaceObject>>,
                     objs: set<SpaceObject>, c: Cell, i: nat)
    requires c in p && i < |p[c]| && Placed(m, p, objs, p[c][i]) && NoRepeats(p)
    requires q == p[c := RemoveAt(p[c], i)]
    requires forall d, k | d in q && 0 <= k < |q[d]| :: q[d][k] == p[d][if d == c && k >= i then k + 1 else k]
    ensures Placed(m, q, objs - {p[c][i]}, null)
  {
    forall d, k | d in q && 0 <= k < |q[d]|
      ensures q[d][k] != p[c][i]
    {
      var k' := if d == c && k >= i then k + 1 else k;
      assert p[d][k'] == q[d][k];
    }
  }

  /** After taking index i out of bucket c, every other object is still in
      the bucket of its cell. */
  lemma RemoveBucketed(p: map<Cell, seq<SpaceObject>>, q: map<Cell, seq<SpaceObject>>,
                       objs: set<SpaceObject>, c: Cell, i: nat)
    requires c in p && i < |p[c]| && Bucketed(p, objs, p[c][i])
    requires q == p[c := RemoveAt(p[c], i)]
    requires forall d, k | d in q && 0 <= k < |q[d]| :: q[d][k] == p[d][if d == c && k >= i then k + 1 else k]
    ensures Bucketed(q, objs - {p[c][i]}, null)
  {
    forall o | o in objs - {p[c][i]}
      ensures CellOf(o) in q && o in q[CellOf(o)]
    {
      var k :| 0 <= k < |p[CellOf(o)]| && p[CellOf(o)][k] == o;
      if CellOf(o) == c {
        if k < i {
          assert q[c][k] == o;
        } else {
          assert q[c][k - 1] == o;
        }
      }
    }
  }

  /** Moving a live object from index i of bucket c to the end of the bucket of
      the cell it now stands in restores the invariant. */
  lemma RelocateMoving(m: object, p: map<Cell, seq<SpaceObject>>, objs: set<SpaceObject>, c: Cell, i: nat)
    requires c in p && i < |p[c]| && GridInv(m, p, objs, p[c][i])
    requires p[c][i] in objs && CellOf(p[c][i]) != c
    ensures var q := p[c := RemoveAt(p[c], i)];
      var np := CellOf(p[c][i]);
      GridInv(m, q[np := (if np in q then q[np] else []) + [p[c][i]]], objs, null)
  {
    var obj := p[c][i];
    var q := p[c := RemoveAt(p[c], i)];
    RemoveMoving(m, p, objs, c, i);
    AddToGrid(m, q, objs - {obj}, null, obj);
    assert objs - {obj} + {obj} == objs;
  }

  /** `p1` is `p0` with objects from outside `known` appended to the buckets of
      the cells in `received` (creating buckets as needed); every other bucket
      is as it was. */
  ghost predicate Appended(p0: map<Cell, seq<SpaceObject>>, p1: map<Cell, seq<SpaceObject>>,
                           known: set<SpaceObject>, received: set<Cell>)
  {
    && (forall k | k in p0 :: k in p1 && p0[k] <= p1[k])
    && (forall k | k in p1 && k !in p0 :: k in received)
    && (forall k | k in p0 && k !in received :: p1[k] == p0[k])
    && (forall k, j | k in p1 && 0 <= j < |p1[k]| && (k in p0 ==> j >= |p0[k]|) :: p1[k][j] !in known)
  }

  lemma AppendedStep(p0: map<Cell, seq<SpaceObject>>, p1: map<Cell, seq<SpaceObject>>,
                     p2: map<Cell, seq<SpaceObject>>, known: set<SpaceObject>,
                     received: set<Cell>, c: Cell, obj: SpaceObject)
    requires Appended(p0, p1, known, received) && obj !in known
    requires p2 == p1[c := (if c in p1 then p1[c] else []) + [obj]]
    ensures Appended(p0, p2, known, received + {c})
  {
    forall k, j | k in p2 && 0 <= j < |p2[k]| && (k in p0 ==> j >= |p0[k]|)
      ensures p2[k][j] !in known
    {
      if k == c && j == |p2[k]| - 1 {
      } else {
        assert p2[k][j] == p1[k][j];
      }
    }
  }

  lemma AppendedRefl(p: map<Cell, seq<SpaceObject>>, known: set<SpaceObject>)
    ensures Appended(p, p, known, {})
  {
  }

  /** A smaller set of known objects keeps Appended. */
  lemma AppendedShrink(p0: map<Cell, seq<SpaceObject>>, p1: map<Cell, seq<SpaceObject>>,
                       known: set<SpaceObject>, received: set<Cell>, x: SpaceObject)
    requires Appended(p0, p1, known, received)
    ensures Appended(p0, p1, known - {x}, received)
  {
  }

  /** Removing the same old element from both sides keeps Appended. */
  lemma AppendedRemoveAt(p0: map<Cell, seq<SpaceObject>>, p1: map<Cell, seq<SpaceObject>>,
                         known: set<SpaceObject>, received: set<Cell>, c: Cell, i: nat)
    requires Appended(p0, p1, known, received) && c in p0 && i < |p0[c]|
    ensures c in p1 && i < |p1[c]|
    ensures Appended(p0[c := RemoveAt(p0[c], i)], p1[c := RemoveAt(p1[c], i)], known - {p0[c][i]}, received)
  {
    var q0, q1 := p0[c := RemoveAt(p0[c], i)], p1[c := RemoveAt(p1[c], i)];
    assert p0[c] <= p1[c];
    assert q0[c] <= q1[c] by {
      assert forall k | 0 <= k < |q0[c]| :: q0[c][k] == q1[c][k] by {
        forall k | 0 <= k < |q0[c]| ensures q0[c][k] == q1[c][k] {
          var k' := if k < i then k else k + 1;
          assert p0[c][k'] == p1[c][k'];
        }
      }
    }
    forall k, j | k in q1 && 0 <= j < |q1[k]| && (k in q0 ==> j >= |q0[k]|)
      ensures q1[k][j] !in known - {p0[c][i]}
    {
      if k == c {
        assert q1[k][j] == p1[c][j + 1];
      }
    }
  }

  /** Appended composes. */
  lemma AppendedTrans(p0: map<Cell, seq<SpaceObject>>, p1: map<Cell, seq<SpaceObject>>,
                      p2: map<Cell, seq<SpaceObject>>, k1: set<SpaceObject>, k2: set<SpaceObject>,
                      r1: set<Cell>, r2: set<Cell>)
    requires Appended(p0, p1, k1, r1) && Appended(p1, p2, k2, r2) && k1 <= k2
    ensures Appended(p0, p2, k1, r1 + r2)
  {
    forall k, j | k in p2 && 0 <= j < |p2[k]| && (k in p0 ==> j >= |p0[k]|)
      ensures p2[k][j] !in k1
    {
      if k in p1 && j < |p1[k]| {
        assert p2[k][j] == p1[k][j];
      }
    }
  }

  lemma PrefixKept(p0: map<Cell, seq<SpaceObject>>, p1: map<Cell, seq<SpaceObject>>,
                   k: set<SpaceObject>, r: set<Cell>, c: Cell, i: nat)
    requires Appended(p0, p1, k, r) && c in p0 && i <= |p0[c]|
    ensures c in p1 && i <= |p1[c]| && p1[c][..i] == p0[c][..i]
  {
    assert p0[c] <= p1[c];
  }

  /** The buckets around one object's turn at index i of bucket c: from `p0`
      (objects `k0`) to `p1`, where the object left bucket c when `removed`
      and new objects were appended to the cells `recv`. The bucket's front
      up to i stays as it was, and the other buckets keep growing at the end
      only. */
  lemma TurnBookkeeping(c: Cell, i: nat, objs: seq<SpaceObject>, others: set<SpaceObject>,
                        oldParts: map<Cell, seq<SpaceObject>>, p0: map<Cell, seq<SpaceObject>>,
                        p1: map<Cell, seq<SpaceObject>>, k0: set<SpaceObject>,
                        received: set<Cell>, recv: set<Cell>, removed: bool)
    requires c in p0 && i < |p0[c]| && i < |objs| && p0[c][..i + 1] == objs[..i + 1]
    requires Appended(oldParts - {c}, p0 - {c}, others, received) && others <= k0 - {objs[i]}
    requires Appended(if removed then p0[c := RemoveAt(p0[c], i)] else p0, p1, k0 - {objs[i]}, recv)
    ensures c in p1 && i <= |p1[c]| && p1[c][..i] == objs[..i]
    ensures Appended(oldParts - {c}, p1 - {c}, others, received + recv)
  {
    var pre := p0[c][..i];
    assert pre == objs[..i] by {
      assert pre == p0[c][..i + 1][..i] && objs[..i] == objs[..i + 1][..i];
    }
    var q := if removed then p0[c := RemoveAt(p0[c], i)] else p0;
    assert q[c][..i] == pre;
    PrefixKept(q, p1, k0 - {objs[i]}, recv, c, i);
    AppendedWithout(q, p1, k0 - {objs[i]}, recv, c);
    AppendedTrans(oldParts - {c}, p0 - {c}, p1 - {c}, others, k0 - {objs[i]}, received, recv);
  }

  /** Appended holds bucket by bucket, so it holds without any one cell. */
  lemma AppendedWithout(p0: map<Cell, seq<SpaceObject>>, p1: map<Cell, seq<SpaceObject>>,
                        k: set<SpaceObject>, r: set<Cell>, c: Cell)
    requires Appended(p0, p1, k, r)
    ensures Appended(p0 - {c}, p1 - {c}, k, r)
  {
  }

  /** An object's state after one `step` from state s. */
  function After(s: Snapshot, step: Snapshot -> StepResult): Snapshot
  {
    var r := step(s);
    Snapshot(r.Pos, r.Angle, r.Flags, s.HitClass)
  }

  /** An object's state after n steps from state s; the hit class never
      changes. */
  function Steps(s: Snapshot, step: Snapshot -> StepResult, n: nat): (r: Snapshot)
    ensures r.HitClass == s.HitClass
  {
    if n == 0 then s else After(Steps(s, step, n - 1), step)
  }

  /** The cell a state stands in. */
  function CellAt(s: Snapshot): Cell
  {
    WorldToPart(s.Pos.X, s.Pos.Y)
  }

  /** Where the sweep stands with the objects `snaps0` that were on the map
      when it began, their states now being `snaps`: each one live then has
      taken counts[o] steps, at least one exactly when the cell it started in
      has been visited. */
  ghost predicate Counted(snaps0: map<SpaceObject, Snapshot>, snaps: map<SpaceObject, Snapshot>,
                          counts: map<SpaceObject, nat>, visited: set<Cell>, step: Snapshot -> StepResult)
  {
    && snaps.Keys == snaps0.Keys && counts.Keys == snaps0.Keys
    && forall o | o in snaps0 && LiveFlags(snaps0[o].Flags) ::
         snaps[o] == Steps(snaps0[o], step, counts[o]) && (CellAt(snaps0[o]) in visited <==> counts[o] >= 1)
  }

  /** One more step for each object of `bucket`. */
  function Bump(counts: map<SpaceObject, nat>, bucket: seq<SpaceObject>): map<SpaceObject, nat>
  {
    map o | o in counts :: if o in bucket then counts[o] + 1 else counts[o]
  }

  /** Nothing has been stepped before the sweep begins. */
  lemma CountedStart(snaps0: map<SpaceObject, Snapshot>, step: Snapshot -> StepResult)
    ensures Counted(snaps0, snaps0, map o | o in snaps0 :: 0, {}, step)
  {
  }

  /** Visiting cell c, whose bucket is `bucket` when reached: every object of
      the bucket live now takes one step (from s0 to s1) and nothing else
      changes. Those of the objects that started in c are all in the bucket,
      and are live if they were live at the start; so each object that
      started in c has now taken a step, and the others their count. */
  lemma {:induction false} CountStep(snaps0: map<SpaceObject, Snapshot>, s0: map<SpaceObject, Snapshot>,
                                     s1: map<SpaceObject, Snapshot>, counts: map<SpaceObject, nat>,
                                     visited: set<Cell>, c: Cell, bucket: seq<SpaceObject>,
                                     step: Snapshot -> StepResult)
    requires Counted(snaps0, s0, counts, visited, step) && c !in visited && s1.Keys == snaps0.Keys
    requires forall o | o in snaps0 && CellAt(snaps0[o]) == c :: o in bucket
    requires forall o | o in bucket && o in snaps0 :: CellAt(s0[o]) == c
    requires forall o | o in bucket && o in snaps0 && LiveFlags(snaps0[o].Flags) :: LiveFlags(s0[o].Flags)
    requires forall o | o in snaps0 ::
      s1[o] == if o in bucket && LiveFlags(s0[o].Flags) then After(s0[o], step) else s0[o]
    ensures Counted(snaps0, s1, Bump(counts, bucket), visited + {c}, step)
  {
    var counts' := Bump(counts, bucket);
    forall o | o in snaps0 && LiveFlags(snaps0[o].Flags)
      ensures s1[o] == Steps(snaps0[o], step, counts'[o])
      ensures CellAt(snaps0[o]) in visited + {c} <==> counts'[o] >= 1
    {
      if o in bucket {
        assert counts'[o] == counts[o] + 1;
        if counts[o] == 0 {
          assert s0[o] == snaps0[o];
        }
      } else {
        assert counts'[o] == counts[o];
      }
    }
  }

  /** The object's own state is what it was. */
  twostate predicate Unmoved(o: SpaceObject)
    reads o
  {
    o.Pos == old(o.Pos) && o.Angle == old(o.Angle) && o.Flags == old(o.Flags)
  }

  /** The object's state is one `step` from what it was. */
  twostate predicate Stepped(o: SpaceObject, step: Snapshot -> StepResult)
    reads o
  {
    var r := step(old(Snap(o)));
    o.Pos == r.Pos && o.Angle == r.Angle && o.Flags == r.Flags
  }

  /** What one object's Update may create: a new object on the same map. */
  datatype Spawn = Spawn(Pos: Point, Angle: real, HitClass: HitClass)

  /** The outcome of one object's Update (SpaceObject.Update is abstract): its
      new position, heading and flags, and the objects it spawns. */
  datatype StepResult = StepResult(Pos: Point, Angle: real, Flags: ObjFlags, Spawned: seq<Spawn>)

}
