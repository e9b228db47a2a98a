# SpaceWinds core, modelled in Dafny

SpaceWinds is a small 2D space game. Its world is a map split into a grid
of 100x100 cells. Each cell holds a bucket of space objects, such as
ships, bullets and planets. Every frame, Map.Update:

- lets each object update itself;
- removes dead objects;
- moves objects that changed cell into their new cell's bucket;
- drops buckets that stayed empty;
- sorts each bucket by hit class (none, bullet, missile, ship, planet);
- tests each tier of the bucket against the tiers above it for collisions.

Ships carry mounts. A mount holds a weapon and turns within an arc;
weapons fire subject to reload time and ammunition. The player's ship
turns, throttles and boosts. Models are either icospheres described by an
XML file or Wavefront OBJ files with MTL material libraries. They are
loaded once and cached by name.

The model has one module per part of the game:

- `Misc` (misc.dfy): NormalizeAngle.
- `Objects` (objects.dfy):
  - object flags;
  - weapons, their fire gate and Fire;
  - mounts (Fire, TurnTowards), ships (TurnTowards, the firing loop);
  - bullets;
  - the player's turn, throttle and speed.
- `MapGrid` (map.dfy): the grid as a class whose `parts` field maps cells
  to buckets, and Map.Update's passes as methods over it. The invariant
  `Valid` keeps every object on the map in exactly one bucket, the one of
  the cell it stands in.
- `Collision` (collision.dfy): the hit-class sort, the tier bounds,
  CheckCollisions, and lemmas on which pairs are tested.
- `Xml` (xml.dfy): the attribute helpers and the white-space split of
  Xml.List.
- `Text` (text.dfy): the string and TextReader operations the readers use.
- `Materials` (material.dfy):
  - the material registry (Get, the Current setter);
  - ObjMaterial's block reader (GetColor, GetText);
  - LoadLibrary.
- `ObjModels` (objmodel.dfy): ObjModel.Load and the SubObject line
  parser, including mount sub-objects and their arcs.
- `IcoSpheres` (icosphere.dfy): IcoSphereModel.Make and AddPoint, on
  arrays, with the points kept symbolically.
- `Models` (model.dfy): Model.Load's cache and the SphereModel and
  ObjModel constructors.

Things the game takes from its surroundings are parameters of the model:

- an object's own Update, `Collided` and `Hit`;
- file contents (`files`) and parsed XML documents (`docs`);
- number parsing (`parse`, `parseInt`);
- the clock (`now`, `timeDelta`);
- input state;
- `App.SizeAtNear`.

## Model

| member | source | states |
|---|---|---|
| Misc.NormalizeAngle | main.cs:141-143 | an angle already in [0, 2*PI) is kept; a negative one gains a full turn and one of 2*PI or more loses one, so any angle within one turn of the range lands in it |
| Objects.WithFlag | Objects.cs:178-182 | setting a flag turns its bits on, clearing turns them off, and every other bit of the flag word is unchanged |
| Objects.SpaceObject.Set | Objects.cs:179-182 | the object's flags become WithFlag of the old flags; afterwards Is(flag) holds when set and fails when cleared |
| Objects.FireGate | Objects.cs:128-134 | a weapon fires exactly when the reload time has passed since its last shot and its ammo is not 0; firing stamps the time, keeps unlimited ammo (-1) and otherwise spends one round |
| Objects.FiniteAmmoBound | Objects.cs:128-134 | a weapon with n rounds fires at most n shots over any sequence of trigger pulls |
| Objects.SpacedPullsFire | Objects.cs:128-134 | pulls spaced by at least the reload time fire every time with unlimited ammo, and min(n, pulls) times with n rounds |
| Objects.Weapon.constructor | Objects.cs:112 | a new weapon has its class's full ammunition and has never fired |
| Objects.Weapon.TryFire | Objects.cs:128-134 | the weapon fires exactly when FireGate allows it, taking FireGate's new state; otherwise its state is unchanged |
| Objects.Weapon.Fire | Objects.cs:101-122 | one shot is produced exactly when TryFire succeeds, of the weapon's class and aimed at the ship's angle plus the mount's centre angle and offset; the weapon then takes FireGate's new state, and otherwise keeps its state |
| Objects.ClampTurn | Objects.cs:71-72 | a turn too large is cut to the maximum keeping its sign; a turn within the maximum is kept |
| Objects.WrapOffset | Objects.cs:74-77 | the mount offset is corrected by at most one full turn, lands in [-2*PI, 2*PI] when it started within two turns, and is unchanged when already there |
| Objects.ClampToArc | Objects.cs:43-50 | an angle inside the arc is kept; one outside goes to the nearer end of the arc |
| Objects.WrapTurn | Objects.cs:38-40 | a turn is corrected once by a full turn into [-PI, PI] when it lies within three half turns of it, and kept when already there |
| Objects.FullTraverseStep | Objects.cs:35-77 | a mount with full traverse turns the shorter way towards the target by at most TurnSpeed*TimeDelta, then wraps its offset once |
| Objects.ArcTargetInArc | Objects.cs:43-50 | the target chosen for a limited mount lies inside its arc |
| Objects.DirectedTurnExact | Objects.cs:52-68 | for a limited mount inside its arc, the chosen turn reaches the target exactly, going the way that does not cross the gap behind the mount |
| Objects.LimitedTraverseStaysInArc | Objects.cs:42-78 | a limited mount whose offset starts in its arc stays in the arc, and moves by at most TurnSpeed*TimeDelta |
| Objects.Mount.constructor | Objects.cs:80-82 | a mount starts at its centre, offset 0, with its class and weapon |
| Objects.Mount.Fire | Objects.cs:19 | an empty mount never fires; a full one fires exactly when its weapon's gate allows, a shot of the weapon's class along the ship's angle plus the mount's centre angle and offset, and the weapon takes FireGate's new state, or keeps its state when it does not fire |
| Objects.FiredStep | Objects.cs:19 | a mount firing as Mount.Fire promises is one step of the volley: the step adds exactly the shot returned and records the weapon's new state |
| Objects.SalvoOfEmptyStations | Objects.cs:268 | mounts without weapons fire nothing and change no weapon |
| Objects.SalvoUntouched | Objects.cs:268 | a weapon on none of the mounts keeps its state through the volley |
| Objects.SalvoShotsOfDistinctWeapons | Objects.cs:268 | when no weapon sits on two mounts, the volley's shots are those of every mount judged on its own weapon's starting state, in mount order |
| Objects.SalvoStatesOfDistinctWeapons | Objects.cs:268 | when no weapon sits on two mounts, each mounted weapon ends the volley in the state one pull of its own trigger leaves |
| Objects.Mount.TurnTowards | Objects.cs:30-78 | an empty mount does not move; a fixed mount (MaxTurn 0) snaps to offset 0; otherwise the offset becomes the turned offset for this frame |
| Objects.ShipTurnSound | Objects.cs:226-233 | the ship turns by at most TurnSpeed*TimeDelta and at most half a turn, in the direction of the shorter way to the target, and ends facing the target when it is within reach |
| Objects.Ship.constructor | Objects.cs:224-236 | a ship starts with zero throttle and speed and the given mounts and limits |
| Objects.Ship.FireMounts | Objects.cs:268 | the mounts fire in order: the shots are exactly the volley of the ship's mounts from the weapons' starting states, each mount adding its weapon's shot when FireGate opens on the state the earlier mounts left, and every weapon ends in the state the volley gives it; at most one shot per mount |
| Objects.Ship.TurnTowards | Objects.cs:226-233 | the heading becomes the turned heading of ShipTurnSound, normalised |
| Objects.Bullet.constructor | Objects.cs:155 | a bullet starts live at its position, heading along its velocity, born now |
| Objects.Bullet.Update | Objects.cs:157-160 | a bullet older than 1.5 seconds is marked dead and stays put; a younger one moves by velocity times the frame time and keeps its flags |
| Objects.PlayerDrive | Objects.cs:250-264 | with Tab the throttle is untouched and the speed is capped at 2.5 times MaxSpeed (exactly speed plus the doubled acceleration below the cap); otherwise the throttle stays within [0, 1], backquote zeroes it, no key leaves it, and the speed approaches the new Throttle*MaxSpeed by at most MaxAccel*MaxSpeed*TimeDelta |
| Objects.Boosted | Objects.cs:250-253 | the boosted speed never exceeds 2.5 times MaxSpeed and equals speed plus the boost below that cap |
| Objects.Throttled | Objects.cs:255-259 | Q and A keep a throttle in [0, 1] within it for a non-negative frame time; backquote gives 0; with no key the throttle is unchanged |
| Objects.Approach | Objects.cs:261-263 | the speed changes by at most the allowed acceleration and never moves away from or past the target; within reach it lands exactly on the target |
| Objects.Player.constructor | Objects.cs:271 | a player does not start turning towards the cursor |
| Objects.Player.Update | Objects.cs:241-268 | a right click toggles cursor following; the ship turns towards the cursor exactly when following; throttle and speed follow PlayerDrive; the ship moves along its new heading at its new speed; without the left button nothing fires and no weapon changes; with it the shots and the weapons' new states are exactly the volley of the ship's mounts at the new heading, from the weapons' states at the start |
| Objects.Player.Steer | Objects.cs:241-266 | the part before the firing loop: the toggle, the turn, PlayerDrive and the move along the new heading, touching no weapon |
| MapGrid.WorldToPart | Map.cs:180-182 | the cell of a point is the floor of each coordinate over 100: the point lies in [100*cx, 100*cx+100) |
| MapGrid.PartToWorldRoundTrip | Map.cs:33 | a cell's corner lies in that cell |
| MapGrid.CellUnique | Map.cs:180-182 | a point lies in exactly one cell |
| MapGrid.RemoveAt | Map.cs:119 | removing index i drops exactly that element, keeping the others in order |
| MapGrid.Map.constructor | Map.cs:211 | a new map has no buckets and no objects, and is valid |
| MapGrid.Map.MakeObjects | Map.cs:195-203 | the cell's bucket is returned, created empty only when the cell had none |
| MapGrid.Map.Add | Map.cs:16-19 | the object joins the map at the end of its cell's bucket, and the grid stays valid |
| MapGrid.Map.GetObjects | Map.cs:27-31 | no bucket exactly when the cell has none; the bucket returned holds exactly the map's objects standing in that cell |
| MapGrid.Map.GetObjectsAt | Map.cs:26-31 | no bucket exactly when the cell of (x, y) has none; the bucket returned holds exactly the map's objects in the cell of (x, y) |
| MapGrid.Map.Remove | Map.cs:21-24 | the object leaves its cell's bucket (just that occurrence) and the map, and the grid stays valid |
| MapGrid.Map.AddSpawned | Map.cs:16-19 | objects spawned during an update are new and live, each is appended to the bucket of its cell, and the grid stays valid |
| MapGrid.Map.Update | Map.cs:95-174 | afterwards the grid is valid; each object live at the start has taken steps[o] >= 1 steps of its own update and then at most been killed (KilledFrom); objects removed were dead and detached, and the ones dead at the start were removed untouched; only buckets empty at the start were dropped; every bucket is sorted by hit class, and checks[c] records its collision turn: the one BucketRef gives, the three CheckCollisions calls, from the states its active objects had after their own updates, testing only cross-tier pairs, lower tier first, none twice, and every cross-tier pair still live at the end among them |
| MapGrid.Map.SweepAndPrune | Map.cs:96-136 | each object live at the start is now exactly steps[o] >= 1 steps of its own update on from its starting state; no object on the map is dead; dead ones were detached, those dead at the start untouched; the dropped buckets were empty at the start |
| MapGrid.Map.Prune | Map.cs:132-136 | a bucket is dropped exactly when it was emptied in the sweep and is still empty; the others are unchanged |
| MapGrid.Map.CollideAll | Map.cs:138-173 | every bucket ends sorted by hit class and holds the same objects; the collision tests only kill objects, and no flag but Dead changes; for every bucket, checks[c] is the turn BucketRef gives from the states the pass began with, and lists the pairs tested: cross-tier, lower tier first, none twice, both live when the pass began, and every cross-tier pair live at the end among them |
| MapGrid.Map.CollideInOrder | Map.cs:138-172 | visiting every cell with a bucket once, in any order, sorts every bucket, only kills, and records for every cell the turn BucketRef gives and the pairs tested, live when the pass began, with every cross-tier pair live at the end among them |
| MapGrid.CheckStep | Map.cs:138-172 | one cell's turn touches only that bucket's flags, so the records of the cells already visited stay true against the new flags, and the pairs the turn tested were live when the pass began |
| MapGrid.Map.CollideCell | Map.cs:139-172 | one cell's bucket is sorted (a permutation) and the other buckets and objects are untouched; ch is the turn BucketRef gives from the states the turn began with and lists the pairs tested: cross-tier, lower tier first, none twice, both live when the turn began, and every cross-tier pair live afterwards among them; the grid stays valid |
| MapGrid.CollideChecked | Map.cs:139-172 | the bucket's turn read as a record: its NoHit front, its active rest, the states before and after, which BucketRef relates, and the pairs tested, cross-tier, lower tier first, none twice, both live before, and every cross-tier pair live after among them |
| MapGrid.CheckOf | Map.cs:139-172 | a record that follows BucketRef over the active part of a sorted bucket is the one CheckedPairs describes, begun from the states it records |
| MapGrid.TestedOf | Map.cs:146-172 | a turn that follows BucketRef over sorted active objects tests only cross-tier pairs, lower tier first, none twice, and every cross-tier pair live after it among them |
| MapGrid.StartedOf | Map.cs:170-172 | a turn that follows BucketRef tested only pairs whose two objects were live in the states it began from |
| MapGrid.FollowsAdded | Map.cs:138-173 | recording one more cell's turn that follows BucketRef keeps every record following it |
| MapGrid.Map.SortCell | Map.cs:139-172 | the bucket of c is replaced by its sorted permutation and the other buckets are unchanged; its objects only die; the record follows BucketRef and is the one CheckedPairs describes, begun from the states before the turn |
| MapGrid.Map.CheckBucket | Map.cs:139-172 | the reordered bucket CollideBucket returns is a sorted permutation that can replace the old one without breaking the grid; the objects only die; the record follows BucketRef |
| MapGrid.Map.SetBucket | Map.cs:139 | replacing a bucket by its sorted permutation changes exactly that bucket and no object state, and the grid stays valid |
| MapGrid.Map.CollideStep | Map.cs:138-172 | one cell's turn in the pass extends the records of the visited cells by that cell's, all of them still true and following BucketRef |
| MapGrid.StartedAtPassStart | Map.cs:138-172 | the turn of a cell not visited before began from the states the pass began with |
| MapGrid.StartSnap | Map.cs:138-172 | an active object of a cell not yet visited still has its starting state when that cell's turn begins |
| MapGrid.Map.CellOrder | Map.cs:108-110 | the sweep visits each cell that has a bucket exactly once |
| MapGrid.Map.Sweep | Map.cs:96-130 | each object live at the start is now exactly steps[o] >= 1 steps of its own update on from its starting state; afterwards no object on the map is dead, the dead ones are detached, those dead at the start untouched; every cell listed as emptied had an empty bucket at the start |
| MapGrid.Map.SweepCell | Map.cs:109-129 | one cell's visit: the cell is listed as emptied exactly when its bucket is empty when reached, and then it was empty at the start; every object that started in the cell and was live then has now taken at least one step, and every object's step count stays exact |
| MapGrid.CountStep | Map.cs:109-129 | visiting one cell adds exactly one step to every object of its bucket live when reached; since every object that started in the cell is in that bucket, and still live if it was live at the start, each such object has now taken at least one step, and the others keep their count |
| MapGrid.Map.SweepBucket | Map.cs:113-129 | every object of the bucket takes its turn from the last to the first; those of the bucket still on the map afterwards are live |
| MapGrid.Map.UpdateAt | Map.cs:114-128 | one object's turn: its own update runs, its spawned objects are added, and it is then removed if dead or moved to the end of its new cell's bucket if it changed cell |
| MapGrid.Map.StepObject | Map.cs:114-117 | the object takes the position, heading and flags its own update gives it |
| MapGrid.Map.Settle | Map.cs:118-128 | a dead object leaves its bucket and the map; a live one that changed cell moves to its new cell's bucket; otherwise nothing moves |
| MapGrid.Map.Drop | Map.cs:118-121 | a dead object is removed from its bucket and detached, and the grid is valid again |
| MapGrid.Map.Relocate | Map.cs:123-127 | a live object that changed cell leaves its old bucket and is appended to its new one, and the grid is valid again |
| Collision.Compare | Map.cs:187-190 | the comparison is negative, zero or positive exactly as the first object's hit class is below, equal to or above the second's |
| Collision.CompareTransitive | Map.cs:187-190 | the comparison is transitive, so it orders consistently |
| Collision.SortByClass | Map.cs:139 | the sorted bucket is ordered by hit class and is a permutation of the bucket |
| Collision.CountNoHit | Map.cs:141-142 | the count is the length of the run of NoHit objects at the front; in a sorted bucket nothing after it is NoHit |
| Collision.TierBounds | Map.cs:146-168 | on sorted active objects the missile bound is the number of bullets, the ship bound the number of bullets and missiles, and the planet bound the number of all but planets; a bound that no lower tier reaches is the count itself, and the planet bound stays -1 when there are no active objects |
| Collision.BoundaryBounds | Map.cs:148-165 | in sorted objects, everything before the boundary of a rank has at most that rank and the object at the boundary, if any, a higher one |
| Collision.TiersPairedOnce | Map.cs:146-172 | the three CheckCollisions calls pair two active objects exactly when they are in different tiers, the lower one first |
| Collision.CheckCollisions | Map.cs:213-225 | the states after the call and the pairs it tests are CheckRef's: nothing when start == end or end == count (nor when start > end), otherwise the outer loop run to end; what CheckRef does is stated by CheckRefFacts and the lemmas after it |
| Collision.PairWith | Map.cs:219-223 | the states after the inner loop and the pairs it tests are RowUpTo's, run to count: object a is paired with each j from end on, in increasing order, exactly when j is live when reached (RowTested), and the pair is handed to HitPair |
| Collision.RowStep | Map.cs:220-222 | one turn of the inner loop advances the states and pairs from RowUpTo at j to RowUpTo at j + 1 |
| Collision.RowTurn | Map.cs:217-224 | one turn of the outer loop advances the states and pairs from PassUpTo at a to PassUpTo at a + 1 |
| Collision.Visit | Map.cs:220-222 | j is reported live exactly when it was live when reached; a dead j is skipped, leaving every state as it was, and a live one is tested against a, leaving HitStep's states |
| Collision.HitAt | Map.cs:222 | testing the pair (a, j) leaves exactly HitStep's states: HitOutcome at a and j, every other object unchanged |
| Collision.RowTested | Map.cs:219-222 | (a, j) is tested by the inner loop exactly when end <= j < count and j is live when the loop reaches it |
| Collision.PassTested | Map.cs:216-224 | (i, j) is tested by the outer loop exactly when start <= i < a, i is live when its turn comes, and its inner loop tests (i, j) |
| Collision.CheckTested | Map.cs:213-225 | (i, j) is tested by CheckCollisions exactly when i is in [start, end) and j in [end, count), i is live when its turn comes and j is live when the inner loop reaches it |
| Collision.CheckRefFacts | Map.cs:213-225 | CheckCollisions only kills; every pair tested has its first index in [start, end) and its second in [end, count), both live when the call began; every such pair live afterwards was tested; the pairs come in increasing order, so none repeats |
| Collision.CheckTestedLive | Map.cs:213-225 | every pair tested has its first index in [start, end) and its second in [end, count), both live when the call began |
| Collision.CheckAllTested | Map.cs:213-225 | every pair with its first index in [start, end) and its second in [end, count), both live after the call, was tested |
| Collision.CheckReaches | Map.cs:213-225 | every pair tested has its first index in [start, end) and its second in [end, count) |
| Collision.CheckSorted | Map.cs:216-224 | the pairs are tested in increasing order |
| Collision.CheckLater | Map.cs:213-225 | the call only kills objects, keeping every other flag |
| Collision.CheckApplied | Map.cs:213-225 | the states after the call are those of handing its tested pairs one by one to HitPair |
| Collision.RowBounds | Map.cs:219 | the inner loop up to j pairs a only with objects from end to j - 1 |
| Collision.PassBounds | Map.cs:216-219 | the outer loop up to a pairs objects from start to a - 1 with objects from end on |
| Collision.RowSorted | Map.cs:219 | the inner loop tests its objects in increasing order |
| Collision.PassSorted | Map.cs:216-219 | the outer loop tests its pairs in increasing order |
| Collision.RowLater | Map.cs:219-223 | later in the inner loop, objects have only died |
| Collision.PassLater | Map.cs:216-224 | later in the outer loop, objects have only died |
| Collision.RowApplied | Map.cs:219-223 | the inner loop's states are those of handing its pairs one by one to HitPair |
| Collision.PassApplied | Map.cs:216-224 | the outer loop's states are those of handing its pairs one by one to HitPair |
| Collision.ApplyAppend | Map.cs:222 | handing pairs t1 then pairs t2 to HitPair is handing t1 + t2 |
| Collision.HitOutcome | Map.cs:222 | the outcome of one pair only kills; a pair that has not collided is unchanged; after a collision each end is live exactly when it was and Hit does not kill it |
| Collision.HitStepLater | Map.cs:222 | one pair's test only kills, and only at the two ends of the pair |
| Collision.KilledByStep | Map.cs:222 | an object killed by one pair's test was one of its ends, live, and the pair collided with a hit that kills that end |
| Collision.DeathExplained | Map.cs:213-225 | every object live before a run of pair tests and dead after it was killed by one of them: a pair that collided while it was live, with a hit that kills its end |
| Collision.CheckDeaths | Map.cs:213-225 | an object live before CheckCollisions and dead after it was killed by one of the pairs the call tested: the pair collided while the object was live, and the hit kills its end |
| Collision.TiersDeaths | Map.cs:170-172 | an object live before the three calls and dead after them was killed by one of the pairs they tested, as for CheckDeaths |
| Collision.KillKeepsFlags | Objects.cs:178-182 | marking an object dead leaves its other flags as they were |
| Collision.HitPair | Map.cs:222 | for two different objects the new states are HitOutcome of the old ones: a pair that has not collided keeps its flags; after a collision the hitter is live exactly when it was and Hit does not kill it, and likewise the target; no flag but Dead changes and no dead object revives |
| Collision.CollideBucket | Map.cs:139-172 | the bucket is sorted by hit class and is a permutation of the old one; the NoHit objects at the front are skipped; the active rest ends in the states BucketRef gives from their states before, testing the pairs BucketRef lists; objects only die |
| Collision.SplitNoHit | Map.cs:139-142 | the sorted bucket splits into its NoHit front and the active rest |
| Collision.CheckTiers | Map.cs:170-172 | the three calls leave the states and test the pairs TiersRef gives: each CheckCollisions call from the states the one before left; objects only die |
| Collision.TiersLater | Map.cs:170-172 | the three calls only kill objects, keeping every other flag |
| Collision.TiersRefFacts | Map.cs:146-172 | with the bounds TierBounds finds, the three calls test only cross-tier pairs, lower tier first, both live when the first call began, none twice, and every cross-tier pair live afterwards among them |
| Collision.TiersTestedLive | Map.cs:146-172 | every pair the three calls test is cross-tier, lower tier first, both live when the first call began |
| Collision.TiersNoRepeat | Map.cs:146-172 | no pair is tested twice by the three calls |
| Collision.TiersAllTested | Map.cs:146-172 | every cross-tier pair live after the three calls was tested by one of them |
| Collision.TiersApplied | Map.cs:170-172 | the states after the three calls are those of handing all their tested pairs one by one to HitPair |
| Collision.TestedLiveAtStart | Map.cs:170-172 | a pair tested by any of the three calls was live, both ends, when the first call began, since objects only die between calls |
| Collision.CheckEachTier | Map.cs:170-172 | the three calls in turn: each call's states and pairs are CheckRef's from the states the one before left |
| Collision.LiveCrossTierTested | Map.cs:170-172 | across the three calls, every cross-tier pair live at the end was tested |
| Collision.TestedAcrossTiers | Map.cs:170-172 | the tested pairs are cross-tier, lower tier first |
| Collision.TiersDistinct | Map.cs:170-172 | no pair is tested by two of the calls |
| Xml.SelectChild | Model.cs:151 | the first child with that name and id is returned, or none when there is none |
| Xml.Attr | Xml.cs:11-16 | the attribute's value when the node has it, else the default, also for a null node |
| Xml.Float | Xml.cs:20-23 | a missing attribute gives the default, a present one its parsed value |
| Xml.FloatAt | Xml.cs:24-27 | the parsed value of the node's attribute, or the default when it has none |
| Xml.Int | Xml.cs:29-32 | a missing attribute gives the default, a present one its parsed value |
| Xml.IntAt | Xml.cs:33-36 | the parsed value of the node's attribute, or the default when it has none |
| Xml.Lower | Xml.cs:43 | lower-casing keeps the length and maps A-Z to a-z, leaving every other character alone |
| Xml.LowerFalse | Xml.cs:43 | a string lower-cases to "false" exactly when it spells "false" in any mix of cases |
| Xml.IsTrueExactly | Xml.cs:38-44 | IsTrue rejects exactly null, "", "0" and the spellings of "false" |
| Xml.TrueIsNotEmpty | Xml.cs:38-44 | anything IsTrue accepts is not IsEmpty |
| Xml.List | Xml.cs:46-52 | an empty or missing value gives no pieces; otherwise the pieces are the white-space-separated parts |
| Xml.SplitNoSpace | Xml.cs:52 | no piece of the split contains white space |
| Xml.SplitInnerNonEmpty | Xml.cs:52 | every piece but the first and the last is non-empty |
| Xml.SplitLetters | Xml.cs:52 | together the pieces hold every non-space character of the input, in order |
| Xml.SplitJoin | Xml.cs:52 | non-empty words without white space, joined by single spaces, split back into the same words |
| Text.IndexOf | Model.cs:173 | the first position of the character, or -1 exactly when it does not occur |
| Text.SplitOn | Model.cs:80-83 | the pieces of a split on a character never contain it, and there is at least one |
| Text.JoinSplit | Model.cs:82-83 | joining the pieces of a split gives back the string |
| Text.SplitJoin | Model.cs:82-83 | splitting pieces that do not contain the character, once joined, gives back the pieces |
| Text.BlockEnd | Model.cs:144-146 | a block ends at the next line with the prefix, or at the end of the file, and no line before that has the prefix |
| Text.LineReader.ReadLine | Material.cs:80-87 | the next line is returned and the reader moves on by one, or null at the end of the file |
| Materials.ObjMaterial.constructor | Material.cs:42-43 | a material keeps its name and the properties read for it |
| Materials.GetTextShape | Material.cs:135 | GetText is the text after the first space, or the whole line when it has none |
| Materials.GetTextAfterWord | Material.cs:135 | for a keyword without spaces followed by a space, the text is exactly what follows |
| Materials.GetColor | Material.cs:125-132 | a line of exactly four space-separated pieces gives the colour of its three numbers; any other gives the grey of its first number |
| Materials.GetColorOfLine | Material.cs:125-132 | a line "Kd r g b" reads back as (r, g, b), and "Kd v" as (v, v, v) |
| Materials.Trunc | Material.cs:58 | the (int) cast truncates toward zero: the result is the integer part, rounded down for non-negative values and up for negative ones |
| Materials.ApplyLine | Material.cs:53-62 | a "Ka ", "Kd " or "Ks " line sets the ambient, diffuse or specular colour to GetColor of the line; a "d " or "Tr " line sets the alpha to its value; an "Ns " line sets the shininess to its value times 128/1000; an "illum" line sets the lighting model to its value truncated; a "map_Kd" line names the texture and turns texturing on; each changes nothing else, and any other line changes nothing |
| Materials.AlphaIsLast | Material.cs:53-62 | a material's alpha is the one its last "d " or "Tr " line names, or 1 when there is none |
| Materials.TextureIffMapLine | Material.cs:53-62 | a material uses a texture exactly when its block has a "map_Kd" line |
| Materials.ReadMaterial | Material.cs:42-64 | the material is named by its "newmtl" line and its properties are the defaults with each line of its block applied in order; reading stops at the next "newmtl" line or the end of the file, and that line is handed back |
| Materials.DefsNames | Material.cs:80-88 | the names a library defines are exactly the names on its "newmtl" lines |
| Materials.LastDefinitionWins | Material.cs:85 | a name defined twice keeps the properties of its last definition |
| Materials.SwitchReplays | Material.cs:16-25 | switching materials unapplies the old one and applies the new one, so exactly the current material is applied |
| Materials.Registry.constructor | Material.cs:16-27 | the registry starts empty, with no current material and no library loaded |
| Materials.Registry.Get | Material.cs:27 | succeeds exactly for a registered name, with that material; other names fail as the game's indexer throws |
| Materials.Registry.SetCurrent | Material.cs:16-25 | setting the current material to itself makes no call; otherwise the old one is unapplied, the new one applied, and the registry stays consistent |
| Materials.Registry.LoadLibrary | Material.cs:75-90 | as written: only the first path loaded is recorded, so only that one is skipped when loaded again; a library read registers every material it defines under its name, replacing earlier ones |
| Materials.Registry.LoadLibraryOnce | Material.cs:75-90 | as meant: every loaded path is recorded and skipped later; otherwise the library's definitions are added to the registry, and no other material changes; the loaded set and materials after the call are LoadOnce of those before |
| Materials.Registry.LibsOf | Material.cs:35-137 | the snapshot of the registry holds its loaded set and exactly its material names |
| Materials.LoadOnce | Material.cs:75-90 | after loading, the path is recorded; a recorded path changes nothing; otherwise the materials become the old ones overridden by the library's definitions; recorded paths stay recorded |
| Materials.Registry.ReadAll | Material.cs:80-88 | the loop registers every material from the current line on, skipping the lines before the first "newmtl" |
| Materials.Registry.AddMaterial | Material.cs:83-86 | the material at a "newmtl" line is read and registered under its name |
| Materials.Recorded | Material.cs:76-77 | as written, the list of loaded libraries is created with the first path and never grows |
| Materials.RecordedAll | Material.cs:76-77 | as meant, the list of loaded libraries always holds the path just loaded and keeps the earlier ones |
| Materials.OnlyFirstSkipped | Material.cs:76-77 | as written, after any run of loads only the very first path is skipped when loaded again |
| Materials.SecondLibraryReread | Material.cs:76-77 | as written, loading "a.mtl" and then "b.mtl" does not record "b.mtl", so it is read again |
| Materials.EveryLoadRemembered | Material.cs:76-77 | as meant, a load is skipped exactly when its path was loaded before |
| ObjModels.ComponentIndex | Model.cs:83 | an empty component is -1; otherwise the index is one less than the number written |
| ObjModels.Emit | Model.cs:85-90 | a face line of four pieces (a triangle) appends 9 entries of the buffer, and any other line is read as a quad and appends 18, two triangles |
| ObjModels.TriangleFace | Model.cs:85-88 | a three-vertex face appends exactly its three vertices |
| ObjModels.QuadFace | Model.cs:85-90 | a four-vertex face appends triangles 1-2-4 and 2-3-4 |
| ObjModels.Start | Model.cs:61-65 | a sub-object starts with no material, flat shading, no faces and a 12-slot face buffer, continuing the model's points and normals |
| ObjModels.PointOf | Model.cs:71-78 | a "v" or "vn" line succeeds exactly when it has at least four pieces, giving the point of its three numbers with the y axis flipped |
| ObjModels.ObjLine | Model.cs:71-99 | a line that is read only appends to the face list, a whole number of triangles, and to the points and normals; a line other than a face line leaves the faces and the face buffer alone |
| ObjModels.PointLines | Model.cs:71-79 | "v" and "vn" lines add a point or a normal, and fail with fewer than four pieces |
| ObjModels.FaceLine | Model.cs:80-91 | an "f" line appends its triangles, and fails when its components do not fit the face buffer |
| ObjModels.SmoothLine | Model.cs:92-93 | an "s" line turns smooth shading on exactly for "s 1" |
| ObjModels.UseMtlLine | Model.cs:94-98 | "usemtl (null)" changes nothing; any other name must be registered and becomes the sub-object's material |
| ObjModels.OtherLine | Model.cs:71-99 | every other line is ignored |
| ObjModels.ReadLines | Model.cs:67-100 | reading lines in order, the first line that fails stops the reading; a successful reading only appends whole triangles to the faces and appends to the points and normals |
| ObjModels.FillFace | Model.cs:82-83 | the face buffer is filled with the components of the line exactly when they fit its 12 slots, and the slots after them are unchanged |
| ObjModels.WriteComponents | Model.cs:83 | one vertex token's components are written from position j on; no other slot changes |
| ObjModels.AppendTriangles | Model.cs:85-90 | the triangles of the face buffer are appended to the face list, as Emit states |
| ObjModels.ReadObjLine | Model.cs:71-99 | one pass of the loop has exactly ObjLine's effect, and the face buffer holds the face read |
| ObjModels.ReadSubObject | Model.cs:59-103 | a sub-object is read from its "o" line to the next one or the end of the file, with exactly ReadLines' result; the reader stops at that line |
| ObjModels.MountId | Model.cs:150-151 | the id of a "mount_" sub-object is the longest run of digits right after the prefix |
| ObjModels.RangeToMaxTurn | Model.cs:157 | as meant, without the float cast: a mount's range in degrees, capped at 360, is halved and converted to radians; so 180 gives PI/2 and 360 or more gives exactly Math.PI, and the result lies in [0, PI] for a non-negative range |
| ObjModels.StoredMaxTurn | Model.cs:157 | as written, the value cast to float: a range of 360 or more stores the single-precision PI, which is not Math.PI |
| ObjModels.FullRangeStoredAimsBackwards | Model.cs:157 | as written, a mount loaded with range 360 (the default) is not treated as fully traversing by Mount.TurnTowards, and every angle it aims at lies within 1e-7 radians of the direction opposite its centre |
| ObjModels.FullRangeTraverses | Model.cs:157 | as meant, a mount loaded with range 360 or more turns freely towards any angle, the shorter way round, by at most its step |
| ObjModels.MountOf | Model.cs:150-161 | a mount sub-object needs model data, a matching mount element and a model attribute, or loading fails; it then fails with ArgumentOutOfRangeException when a corner's point index is not a point read so far; the centre angle defaults to 0, the range to 360 and the turn speed to 1080 degrees a second, with the range converted by RangeToMaxTurn |
| ObjModels.AddSubObject | Model.cs:148-170 | an exhaust port is dropped; a mount is added to the mounts exactly when its mount class loads, with the points read so far; any other sub-object is kept for drawing; keeping only sub-objects with whole triangles keeps the model well read |
| ObjModels.ReadObjects | Model.cs:144-171 | the sub-objects are read block by block, the first failure stopping the load; what was read before is kept as a prefix, and only sub-objects that are neither exhaust ports nor mounts, with whole triangles, are kept for drawing |
| ObjModels.LoadObj | Model.cs:140-182 | the lines before the first "o" line record each "mtllib" library as loaded (through the corrected loader), the loaded set and materials after the call are HeaderFold over those lines, and the result is exactly ReadObjects on the rest of the file |
| ObjModels.LoadHeader | Model.cs:143-175 | every library named on an "mtllib" line before the first "o" line is loaded through the corrected loader and recorded; the loaded set and materials after the call are HeaderFold over those lines |
| ObjModels.HeaderLine | Model.cs:173 | an "mtllib" line loads its library through the corrected loader, which records it, and libraries recorded before stay recorded; a library not yet loaded adds exactly its definitions over the old materials, a skipped one or any other line leaves the materials as they were |
| ObjModels.LibRecords | Model.cs:173 | after one header line, a path is recorded exactly when it was before or the line is an "mtllib" line naming it |
| ObjModels.HeaderPathsNamed | Model.cs:143-175 | a path is among the header's libraries exactly when some "mtllib" line among the first n names it |
| ObjModels.HeaderRecords | Model.cs:143-175 | after the header, a path is recorded exactly when it was before or the header names it |
| ObjModels.HeaderRegisters | Model.cs:143-175 | after the header (each library loaded as Material.cs:75-90 does), every material there before is still there, and every material defined by a named library that was not yet loaded is there |
| ObjModels.HeaderOnly | Model.cs:143-175 | after the header (each library loaded as Material.cs:75-90 does), every material was there before or is defined by a library the header names |
| ObjModels.LoadSubObjects | Model.cs:144-171 | the loop reads the sub-objects from the first "o" line to the end of the file, with exactly ReadObjects' result |
| IcoSpheres.EdgePoint | Model.cs:313 | the midpoint of a and b is the same whichever order the two are given in |
| IcoSpheres.CountsClosedForm | Model.cs:323-324 | after k subdivisions there are 10*4^k+2 points, 30*4^k edges and 20*4^k triangles, so Euler's formula holds and each edge borders two triangles |
| IcoSpheres.Sizes | Model.cs:323-324 | the sizing loop computes the point and edge counts after the given number of subdivisions |
| IcoSpheres.KeyUnique | Model.cs:314 | two different edges (a, b) and (c, d) with b, d below n get different keys a*n+b and c*n+d, so the edge hash never confuses two edges |
| IcoSpheres.BaseCorners | Model.cs:335-353 | the icosahedron's triangles use only its 12 corners |
| IcoSpheres.QuarterOf | Model.cs:364-378 | the four triangles written for a-b-c are a-ab-ac, ab-b-bc, ac-ab-bc and ac-bc-c through its edge midpoints |
| IcoSpheres.IcoSphere.constructor | Model.cs:308-310 | a sphere no bigger than the near size is subdivided once, a bigger one twice, and the points array is sized for that |
| IcoSpheres.IcoSphere.Make | Model.cs:322-392 | the points array is sized for the subdivisions; when they all fit, the faces are 3*20*4^k indices of made points, each point being a corner or the midpoint of earlier points |
| IcoSpheres.IcoSphere.AddPoint | Model.cs:312-320 | an edge seen before gets its filed index; a new one gets the next free index, which moves on, and its midpoint is stored there; it fails past the end of the array |
| IcoSpheres.IcoSphere.Subdivide | Model.cs:355-382 | every triangle becomes its four quarters through its edge midpoints, and the old points are kept |
| IcoSpheres.IcoSphere.QuarterFace | Model.cs:359-379 | one triangle's midpoints are added and its four quarters written at 4i |
| IcoSpheres.IcoSphere.Midpoints | Model.cs:360-362 | the midpoints of a-c, a-b and b-c are found or added, in that order |
| IcoSpheres.IcoSphere.WriteQuarters | Model.cs:364-378 | twelve entries are written at j, in the game's order, and no other entry changes |
| Models.SphereModel.constructor | Model.cs:209-226 | the sphere keeps the given radius, material, pole fix and mesh |
| Models.SphereMaterialName | Model.cs:218-223 | a sphere's material is its non-empty material attribute, or else the model's name |
| Models.LoadSphere | Model.cs:209-226 | the radius defaults to 0; a non-empty mtllib attribute loads that library first, through the corrected loader: a library not yet loaded adds exactly its definitions over the old materials, an empty attribute or a skipped library leaves them as they were; loading succeeds exactly when the material is registered; the mesh is subdivided once or twice by size |
| Models.ObjFileName | Model.cs:47-48 | the OBJ file is the model attribute of the data when there is one, else the name plus ".obj" |
| Models.LoadObjModel | Model.cs:46-52 | the loaded set and materials after the call are HeaderFold over its OBJ file's header; the model is exactly ReadObjects on the lines of its OBJ file, and every kept sub-object is well formed |
| Models.Model.constructor | Model.cs:16-42 | a model keeps its data and its body |
| Models.ModelCache.constructor | Model.cs:40 | the cache starts empty |
| Models.ModelCache.Load | Model.cs:23-38 | a cached name returns the cached model and changes nothing; otherwise the model is a sphere exactly when no data was given and "name.xml" has a sphere root, else it is read from its OBJ file; a model that loads is cached under its name, and a failed load caches nothing; a name not cached changes the loaded set and materials exactly as ModelLibs says, the sphere's library or the OBJ header's ones, whether or not the load succeeds |

## Left out

- Text.StartsWith compares characters ordinally. The source calls .NET's
  one-argument String.StartsWith(string) (Model.cs:69-93, 146, 173 and
  Material.cs:52-59, 83), which compares by the current culture and skips
  ignorable characters such as U+00AD, so a line with a soft hyphen
  before its keyword is matched there and not here.
- Floating point: `float` and `double` are modelled as reals. Rounding,
  NaN and infinities are not modelled. `Math.PI` is its double value
  taken as a real.
- Trigonometry (Rotated, AngleBetween, Vector.Angle, the sphere midpoint's
  normalisation) is given by parameters or kept symbolic. The icosphere's
  points are symbolic corners and midpoints, not coordinates.
- Rendering, OpenGL calls, the star field, Map.Render and RenderObjects,
  and WorldToCoord are not modelled. Material Apply and Unapply are
  recorded as a trace of calls instead of GL state.
- List.Sort with CollisionSort is modelled by a stable insertion sort by
  hit class. The game's sort is unstable, so equal classes may come out
  in another order. Every property proved holds for any order of equal
  classes.
- Map.Update's static scratch arrays (objArr, partArr and the list of
  entries) are left out, along with partArrChanged. The model iterates
  the dictionary's cells in an order it does not fix, as the game's
  Dictionary does.
- An object's own Update, SpaceObject.Collided and Hit are parameters.
  Hit is modelled by which of the two objects it kills.
- MapGrid.Map.Sweep: the step count steps[o] is exact but only bounded
  below by one. The pass runs over the cells listed when it began, but
  over their buckets as they stand when reached. So an object that moves
  into an existing bucket not yet visited is stepped again, and one that
  moves into a new bucket is not. The model proves the count is at least
  one; it does not give a closed form for it.
- MapGrid.Map.SweepAndPrune: the step count is bounded below by one only,
  as for Sweep.
- MapGrid.Map.Update: the step count is bounded below by one only, as for
  Sweep. Each record's starting states are tied to the objects' stepped
  states (Steps of their state at the start) only for objects on the map
  when Update began; for an object spawned during the sweep the record's
  starting state is not related to anything in Update's contract.
- Files, StreamReader and XmlDocument loading are parameters (`files`,
  `docs`). A missing file is not modelled. Misc.LoadXml is not part of
  this model.
- Number parsing (float.Parse, int.Parse, double.Parse) is a parameter. A
  parse exception is not modelled.
- String.ToLower is modelled on the letters A-Z only. The regex `\d` is
  modelled as the ASCII digits. `\s` is the .NET white-space class:
  space, tab, LF, vertical tab, form feed, CR, NEL, no-break space and
  the other Unicode space separators and line and paragraph separators,
  25 characters in all.
- ObjModels.LoadObj: ObjModel.Load's single loop is modelled as two
  loops. The first handles the lines before the first "o " line; the
  second handles the sub-objects. They read the lines in the same order
  and take the same actions.
- ObjModels.MountOf: loading the mount's own model (Model.Load on the
  model attribute) is not modelled. Only its name is kept.
- ObjModels.MountOf: MaxTurn is RangeToMaxTurn's value, without the
  float cast of Model.cs:157. The cast is modelled separately by
  StoredMaxTurn (see Findings). The float casts of CenterAngle and
  TurnSpeed are not modelled.
- ObjModels.RangeToMaxTurn is the corrected value, without the float
  cast of Model.cs:157. The game's stored value is StoredMaxTurn, and
  what it does to a turret is FullRangeStoredAimsBackwards (see Findings).
- ObjModels.LoadObj loads "mtllib" libraries through the corrected
  Registry.LoadLibraryOnce, not the as-written Registry.LoadLibrary (see
  Findings). That every library is recorded holds for the corrected loader
  only.
- ObjModels.LoadHeader loads through the corrected loader too, for the
  same reason; its "recorded" ensures holds for that loader only.
- ObjModels.HeaderLine calls the corrected Registry.LoadLibraryOnce where
  Model.cs:173 calls the as-written LoadLibrary, for the same reason.
- Models.LoadSphere loads its "mtllib" library through the corrected
  Registry.LoadLibraryOnce, not the as-written Registry.LoadLibrary, for
  the same reason.
- Model bounds (RadiusSquared, the min/max box), RenderOffset and
  FireOffset, normals and texture coordinates of spheres, and
  CreateSphericalTexCoords are not modelled.
- IcoSpheres.IcoSphere.Make reports a pass that runs out of room through
  `ok`. It does not prove that the points array, sized by the closed
  form, always suffices.
- Objects.Weapon.Fire: the shot is returned instead of being added to the
  owner's map through Map.Add. The projectile's start point and velocity
  (GetInfo, CreateProjectile) are not modelled; only its class and angle
  are kept.
- Player.Update: AimAt (turning the mounts towards the cursor) needs
  Unproject and AngleBetween and is not modelled. Moving the ship along
  its heading uses a heading parameter.
- Materials.Registry: the Current getter is the field itself.
- Object flags: the flag word is a byte with Dead as bit 1, as the game's
  ObjFlag declares it. The hit class that Map.cs masks out of the flags
  (ObjFlag.HitMask) is a separate field, because the ObjFlag enum shown
  does not define it.

## Findings

| source | as written | input that shows it | evidently intended | confidence | as-written member | corrected member |
|---|---|---|---|---|---|---|
| Model.cs:157 | the mount's MaxTurn is cast to float, so a range of 360 (the default) stores the single-precision PI, and Mount.TurnTowards's test MaxTurn==Math.PI (Objects.cs:37) fails | a mount element with no range attribute: its turret can only aim within 1e-7 radians of straight behind its centre | a range of 360 gives MaxTurn == Math.PI and a freely turning turret | medium, not executed | ObjModels.FullRangeStoredAimsBackwards | ObjModels.FullRangeTraverses |
| Material.cs:76-77 | the list of loaded libraries is created holding the first path and never grows, so only that path is skipped when loaded again | load "a.mtl", then "b.mtl" twice: "b.mtl" is read both times | every loaded path is recorded, so each library is read at most once | medium, not executed | Materials.SecondLibraryReread | Materials.EveryLoadRemembered |

The as-written behaviour is `Materials.Registry.LoadLibrary`, with the
list rule `Materials.Recorded` and the lemma
`Materials.OnlyFirstSkipped`. The corrected behaviour is
`Materials.Registry.LoadLibraryOnce`, with `Materials.RecordedAll`. The
rest of the model loads libraries through `LoadLibraryOnce`.

For the mount range, the as-written value is `ObjModels.StoredMaxTurn`,
which casts through a rounding function known only at Math.PI. The
corrected value is `ObjModels.RangeToMaxTurn`, which `ObjModels.MountOf`
uses.
