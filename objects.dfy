// Entity rules of Objects.cs: object flags, weapons and their fire gate,
// turret mounts, ship turning, bullets and the player's throttle.
// Inheritance in the game (Bullet and Ship derive from SpaceObject) is
// written here as composition: a Bullet or Ship holds its SpaceObject body.
module Objects {
  import opened Misc
  import opened Wrappers

  /** A 2D world position (GameLib's TwoD.Point) and a 2D displacement (TwoD.Vector). */
  datatype Point = Point(X: real, Y: real)
  datatype Vector = Vector(X: real, Y: real)

  function Offset(p: Point, v: Vector, scale: real): Point
  {
    Point(p.X + v.X * scale, p.Y + v.Y * scale)
  }

  /** A position advanced along a unit heading at `speed` for `timeDelta` seconds. */
  function Advance(p: Point, heading: Vector, speed: real, timeDelta: real): Point
  {
    Offset(p, heading, speed * timeDelta)
  }

  /** The hit class of an object, in the order the collision pass sorts by. */
  datatype HitClass = NoHit | Bullet | Missile | Ship | Planet

  /** The numeric value of the hit class within the flag word. */
  function Rank(h: HitClass): nat
  {
    match h
    case NoHit => 0
    case Bullet => 1
    case Missile => 2
    case Ship => 3
    case Planet => 4
  }

  /** ObjFlag: the flag word of an object.  The only named flag is Dead. */
  type ObjFlags = bv8
  const Dead: ObjFlags := 1

  /** The flag word after SpaceObject.Set(flag, on). */
  function WithFlag(flags: ObjFlags, flag: ObjFlags, on: bool): (r: ObjFlags)
    ensures on ==> r & flag == flag
    ensures !on ==> r & flag == 0
    ensures r & !flag == flags & !flag
  {
    if on then flags | flag else flags & !flag
  }

  class SpaceObject {
    var Pos: Point
    var Angle: real
    var Flags: ObjFlags
    const HitClass: HitClass
    /** The map the object is on; null when it is on none. */
    var Map: object?

    constructor (pos: Point, angle: real, hitClass: HitClass)
      ensures Pos == pos && Angle == angle && HitClass == hitClass
      ensures Flags == 0 && Map == null
    {
      Pos, Angle, Flags, HitClass, Map := pos, angle, 0, hitClass, null;
    }

    predicate Is(flag: ObjFlags)
      reads this
    {
      Flags & flag != 0
    }

    method Set(flag: ObjFlags, on: bool)
      modifies this`Flags
      ensures Flags == WithFlag(old(Flags), flag, on)
      ensures on && flag != 0 ==> Is(flag)
      ensures !on ==> !Is(flag)
    {
      if on {
        Flags := Flags | flag;
      } else {
        Flags := Flags & !flag;
      }
    }
  }

  // ---------------------------------------------------------------- weapons

  /** WeaponClass: reload time and magazine size (-1 means unlimited). */
  datatype WeaponClass = WeaponClass(ReloadTime: real, MaxAmmo: int)

  /** SimpleGun's class values. */
  const SimpleGun: WeaponClass := WeaponClass(0.1, -1)

  /** A projectile to be created by WeaponClass.CreateProjectile and added to
      the owner's map, fired at the given absolute gun angle. */
  datatype Shot = Shot(Class: WeaponClass, GunAngle: real)

  /** The trigger state of a weapon: when it last fired and its ammunition. */
  datatype Trigger = Trigger(LastFired: real, Ammo: int)

  /** Weapon.TryFire as a function of the trigger state: the new state when the
      weapon fires, None when it does not. */
  function FireGate(t: Trigger, reloadTime: real, now: real): (r: Option<Trigger>)
    ensures r.Some? <==> now - t.LastFired >= reloadTime && t.Ammo != 0
    ensures r.Some? ==> r.value.LastFired == now
    ensures r.Some? && t.Ammo == -1 ==> r.value.Ammo == -1
    ensures r.Some? && t.Ammo != -1 ==> r.value.Ammo == t.Ammo - 1
  {
    if now - t.LastFired >= reloadTime then
      if t.Ammo == -1 then Some(Trigger(now, -1))
      else if t.Ammo != 0 then Some(Trigger(now, t.Ammo - 1))
      else None
    else None
  }

  /** The number of shots a weapon fires when its trigger is pulled at each of
      the given times in turn. */
  function ShotsFired(t: Trigger, reloadTime: real, times: seq<real>): nat
    decreases |times|
  {
    if times == [] then 0
    else match FireGate(t, reloadTime, times[0])
      case Some(t') => 1 + ShotsFired(t', reloadTime, times[1..])
      case None => ShotsFired(t, reloadTime, times[1..])
  }

  /** A finite magazine of n rounds fires at most n shots, however often the
      trigger is pulled. */
  lemma {:induction false} FiniteAmmoBound(t: Trigger, reloadTime: real, times: seq<real>)
    requires t.Ammo >= 0
    ensures ShotsFired(t, reloadTime, times) <= t.Ammo
    decreases |times|
  {
    if times != [] {
      match FireGate(t, reloadTime, times[0])
      case Some(t') => FiniteAmmoBound(t', reloadTime, times[1..]);
      case None => FiniteAmmoBound(t, reloadTime, times[1..]);
    }
  }

  /** Pulls spaced at least one reload time apart (and the first one reload
      time after the last shot) always fire while ammunition lasts: an
      unlimited weapon fires every time, a finite one min(n, pulls) times. */
  lemma {:induction false} SpacedPullsFire(t: Trigger, reloadTime: real, times: seq<real>)
    requires t.Ammo >= -1
    requires times != [] ==> times[0] - t.LastFired >= reloadTime
    requires forall i :: 0 < i < |times| ==> times[i] - times[i - 1] >= reloadTime
    ensures t.Ammo == -1 ==> ShotsFired(t, reloadTime, times) == |times|
    ensures t.Ammo >= 0 ==>
      ShotsFired(t, reloadTime, times) == if t.Ammo < |times| then t.Ammo else |times|
    decreases |times|
  {
    if times != [] {
      var rest := times[1..];
      assert forall i :: 0 < i < |rest| ==> rest[i] - rest[i - 1] >= reloadTime by {
        forall i | 0 < i < |rest| ensures rest[i] - rest[i - 1] >= reloadTime {
          assert rest[i] == times[i + 1] && rest[i - 1] == times[i];
        }
      }
      if t.Ammo == 0 {
        FiniteAmmoBound(t, reloadTime, times);
      } else {
        var t' := FireGate(t, reloadTime, times[0]).value;
        assert rest != [] ==> rest[0] - t'.LastFired >= reloadTime by {
          if rest != [] { assert rest[0] == times[1]; }
        }
        SpacedPullsFire(t', reloadTime, rest);
      }
    }
  }

  class Weapon {
    var LastFired: real
    const Class: WeaponClass
    var Ammo: int

    constructor (wclass: WeaponClass)
      ensures Class == wclass && Ammo == wclass.MaxAmmo && LastFired == 0.0
    {
      Class := wclass;
      Ammo := wclass.MaxAmmo;
      LastFired := 0.0;
    }

    function State(): Trigger
      reads this
    {
      Trigger(LastFired, Ammo)
    }

    /** Weapon.TryFire; `now` is the game clock App.Now. */
    method TryFire(now: real) returns (ok: bool)
      modifies this
      ensures ok == FireGate(old(State()), Class.ReloadTime, now).Some?
      ensures ok ==> State() == FireGate(old(State()), Class.ReloadTime, now).value
      ensures !ok ==> State() == old(State())
    {
      if now - LastFired >= Class.ReloadTime {
        if Ammo == -1 {
          LastFired := now;
          return true;
        }
        if Ammo != 0 {
          LastFired := now;
          Ammo := Ammo - 1;
          return true;
        }
      }
      return false;
    }

    /** Weapon.Fire: one projectile, fired along the mount's absolute angle,
        exactly when TryFire succeeds. */
    method Fire(owner: SpaceObject, mount: Mount, now: real) returns (shot: Option<Shot>)
      modifies this
      ensures shot.Some? == FireGate(old(State()), Class.ReloadTime, now).Some?
      ensures shot.Some? ==> shot.value == Shot(Class, owner.Angle + mount.Class.CenterAngle + mount.Offset)
      ensures shot.Some? ==> State() == FireGate(old(State()), Class.ReloadTime, now).value
      ensures shot.None? ==> State() == old(State())
    {
      var ok := TryFire(now);
      if ok {
        shot := Some(Shot(Class, owner.Angle + mount.Class.CenterAngle + mount.Offset));
      } else {
        shot := None;
      }
    }
  }

  // ----------------------------------------------------------------- mounts

  /** MountClass: the turret's centre angle, half-arc of traverse and speed. */
  datatype MountClass = MountClass(CenterAngle: real, MaxTurn: real, TurnSpeed: real)

  /** |x| */
  function Abs(x: real): real { if x < 0.0 then -x else x }

  /** Limits a signed turn to at most `max` in magnitude, keeping its sign
      (`max*Math.Sign(turn)` when it is too large). */
  function ClampTurn(turn: real, max: real): (r: real)
    ensures max >= 0.0 ==> Abs(r) <= max && Abs(r) <= Abs(turn)
    ensures max >= 0.0 ==> (r < 0.0 ==> turn < 0.0) && (r > 0.0 ==> turn > 0.0)
    ensures Abs(turn) <= max ==> r == turn
  {
    if Abs(turn) > max then (if turn > 0.0 then max else if turn < 0.0 then -max else 0.0) else turn
  }

  /** The single correction applied to a mount's Offset after turning. */
  function WrapOffset(o: real): (r: real)
    ensures -2.0 * TwoPI <= o <= 2.0 * TwoPI ==> -TwoPI <= r <= TwoPI
    ensures -TwoPI <= o <= TwoPI ==> r == o
    ensures r == o || r == o + TwoPI || r == o - TwoPI
  {
    if o < -TwoPI then o + TwoPI else if o > TwoPI then o - TwoPI else o
  }

  /** Clamping the desired angle into the traverse arc [lo, hi] (both already
      normalised).  When the arc does not wrap past 0, angles below lo go to
      lo and angles above hi go to hi; when it does wrap, an angle in the
      excluded gap (hi, lo) goes to whichever end of the gap is nearer. */
  function ClampToArc(d: real, lo: real, hi: real): (r: real)
    ensures lo < hi && lo <= d <= hi ==> r == d
    ensures lo < hi && d < lo ==> r == lo
    ensures lo < hi && d > hi ==> r == hi
    ensures lo >= hi && !(hi < d < lo) ==> r == d
    ensures lo >= hi && hi < d < lo ==>
      (r == lo || r == hi) && Abs(d - r) <= Abs(d - lo) && Abs(d - r) <= Abs(d - hi)
  {
    if lo < hi then
      if d < lo then lo else if d > hi then hi else d
    else if d < lo && d > hi then
      if Abs(d - lo) < Abs(d - hi) then lo else hi
    else d
  }

  /** The desired angle clamped into the mount's arc of traverse (MaxTurn < PI). */
  function ArcTarget(c: MountClass, want: real): real
  {
    ClampToArc(want, NormalizeAngle(c.CenterAngle - c.MaxTurn), NormalizeAngle(c.CenterAngle + c.MaxTurn))
  }

  /** The angle diametrically opposite the mount's centre, wrapped once. */
  function Opposite(c: MountClass): real
  {
    if c.CenterAngle + PI >= TwoPI then c.CenterAngle + PI - TwoPI else c.CenterAngle + PI
  }

  /** target - current, corrected once when it is a whole turn or more. */
  function RawTurn(c: MountClass, offset: real, target: real): real
  {
    var t := target - (c.CenterAngle + offset);
    if t <= -TwoPI then t + TwoPI else if t >= TwoPI then t - TwoPI else t
  }

  /** The raw turn rebased so that it rotates the way that stays inside the
      arc: compare current and target measured from the opposite angle. */
  function DirectedTurn(c: MountClass, offset: real, target: real): real
  {
    var turn := RawTurn(c, offset, target);
    var curR := NormalizeAngle(c.CenterAngle + offset - Opposite(c));
    var targetR := NormalizeAngle(target - Opposite(c));
    if curR < targetR then (if turn < 0.0 then turn + TwoPI else turn)
    else (if turn > 0.0 then turn - TwoPI else turn)
  }

  /** A signed turn corrected once by a whole turn into [-PI, PI] (the
      shorter way round), as both Mount and Ship turning do. */
  function WrapTurn(t: real): (r: real)
    ensures -3.0 * PI <= t <= 3.0 * PI ==> -PI <= r <= PI
    ensures -PI <= t <= PI ==> r == t
    ensures r == t || r == t - TwoPI || r == t + TwoPI
  {
    if t > PI then t - TwoPI else if t < -PI then t + TwoPI else t
  }

  /** The new Offset that Mount.TurnTowards computes for a loaded mount, given
      the desired angle (relative to the hull) and the largest step the turret
      may take this frame, TurnSpeed*TimeDelta. */
  function TurnedOffset(c: MountClass, offset: real, desired: real, maxStep: real): real
  {
    if c.MaxTurn == 0.0 then 0.0
    else
      var want := NormalizeAngle(desired);
      var max := maxStep;
      if c.MaxTurn == PI then
        WrapOffset(offset + ClampTurn(WrapTurn(want - (c.CenterAngle + offset)), max))
      else
        var target := ArcTarget(c, want);
        var turn := RawTurn(c, offset, target);
        if Abs(turn) < 0.000001 then offset
        else if c.TurnSpeed == 0.0 then WrapOffset(offset + turn)
        else WrapOffset(offset + ClampTurn(DirectedTurn(c, offset, target), max))
  }

  /** A mount with full traverse turns by at most TurnSpeed*TimeDelta per call,
      the shorter way round, before its Offset is wrapped once. */
  lemma FullTraverseStep(c: MountClass, offset: real, desired: real, maxStep: real)
    requires c.MaxTurn == PI && maxStep >= 0.0
    ensures var turn := ClampTurn(WrapTurn(NormalizeAngle(desired) - (c.CenterAngle + offset)), maxStep);
      TurnedOffset(c, offset, desired, maxStep) == WrapOffset(offset + turn) &&
      Abs(turn) <= maxStep &&
      (-TwoPI <= desired < 2.0 * TwoPI && 0.0 <= c.CenterAngle + offset < TwoPI ==> Abs(turn) <= PI)
  {
    var want := NormalizeAngle(desired);
    var full := WrapTurn(want - (c.CenterAngle + offset));
    var turn := ClampTurn(full, maxStep);
    if -TwoPI <= desired < 2.0 * TwoPI && 0.0 <= c.CenterAngle + offset < TwoPI {
      assert 0.0 <= want < TwoPI;
      assert -PI <= full <= PI;
    }
  }

  /** The target, measured from the mount's centre, lies within the arc. */
  function ArcOffset(c: MountClass, target: real): real
  {
    var x := target - c.CenterAngle;
    if x > PI then x - TwoPI else if x < -PI then x + TwoPI else x
  }

  lemma ArcTargetInArc(c: MountClass, want: real)
    requires 0.0 <= c.CenterAngle < TwoPI && 0.0 < c.MaxTurn < PI
    requires 0.0 <= want < TwoPI
    ensures 0.0 <= ArcTarget(c, want) < TwoPI
    ensures -c.MaxTurn <= ArcOffset(c, ArcTarget(c, want)) <= c.MaxTurn
  {
    var lo := NormalizeAngle(c.CenterAngle - c.MaxTurn);
    var hi := NormalizeAngle(c.CenterAngle + c.MaxTurn);
    var target := ArcTarget(c, want);
    if lo < hi {
      assert lo == c.CenterAngle - c.MaxTurn && hi == c.CenterAngle + c.MaxTurn;
    } else if c.CenterAngle - c.MaxTurn < 0.0 {
      assert lo == c.CenterAngle - c.MaxTurn + TwoPI && hi == c.CenterAngle + c.MaxTurn;
    } else {
      assert lo == c.CenterAngle - c.MaxTurn && hi == c.CenterAngle + c.MaxTurn - TwoPI;
    }
  }

  /** Inside the arc, the rebased turn is exactly the signed distance from
      the current offset to the target's offset: the turret never turns
      through the excluded arc behind it. */
  lemma DirectedTurnExact(c: MountClass, offset: real, target: real)
    requires 0.0 <= c.CenterAngle < TwoPI && 0.0 < c.MaxTurn < PI
    requires -c.MaxTurn <= offset <= c.MaxTurn
    requires 0.0 <= target < TwoPI && -c.MaxTurn <= ArcOffset(c, target) <= c.MaxTurn
    requires RawTurn(c, offset, target) != 0.0
    ensures DirectedTurn(c, offset, target) == ArcOffset(c, target) - offset
  {
    var delta := ArcOffset(c, target);
    var opp := Opposite(c);
    assert NormalizeAngle(c.CenterAngle + offset - opp) == offset + PI;
    assert NormalizeAngle(target - opp) == delta + PI;
    var turn := RawTurn(c, offset, target);
    assert turn == delta - offset || turn == delta - offset + TwoPI || turn == delta - offset - TwoPI;
  }

  /** A mount with a limited arc whose Offset starts inside the arc stays
      inside it, and moves by at most TurnSpeed*TimeDelta. */
  lemma LimitedTraverseStaysInArc(c: MountClass, offset: real, desired: real, maxStep: real)
    requires 0.0 <= c.CenterAngle < TwoPI && 0.0 < c.MaxTurn < PI && c.TurnSpeed > 0.0 && maxStep >= 0.0
    requires -c.MaxTurn <= offset <= c.MaxTurn
    requires -TwoPI <= desired < 2.0 * TwoPI
    ensures var o := TurnedOffset(c, offset, desired, maxStep);
      -c.MaxTurn <= o <= c.MaxTurn && Abs(o - offset) <= maxStep
  {
    var want := NormalizeAngle(desired);
    var target := ArcTarget(c, want);
    ArcTargetInArc(c, want);
    var turn := RawTurn(c, offset, target);
    var max := maxStep;
    if Abs(turn) >= 0.000001 {
      DirectedTurnExact(c, offset, target);
      var dir := DirectedTurn(c, offset, target);
      var step := ClampTurn(dir, max);
      assert -c.MaxTurn <= offset + step <= c.MaxTurn;
      assert TurnedOffset(c, offset, desired, maxStep) == WrapOffset(offset + step);
    } else {
      assert TurnedOffset(c, offset, desired, maxStep) == offset;
    }
  }

  class Mount {
    const Class: MountClass
    var Mounted: Weapon?
    var Offset: real

    constructor (mclass: MountClass, mounted: Weapon?)
      ensures Class == mclass && Mounted == mounted && Offset == 0.0
    {
      Class, Mounted, Offset := mclass, mounted, 0.0;
    }

    /** Mount.Fire: delegates to the mounted weapon, does nothing when empty. */
    method Fire(owner: SpaceObject, now: real) returns (shot: Option<Shot>)
      modifies Mounted
      ensures Mounted == null ==> shot.None?
      ensures Mounted != null ==> shot.Some? == FireGate(old(Mounted.State()), Mounted.Class.ReloadTime, now).Some?
      ensures Mounted != null && shot.Some? ==>
        shot.value == Shot(Mounted.Class, owner.Angle + Class.CenterAngle + Offset) &&
        Mounted.State() == FireGate(old(Mounted.State()), Mounted.Class.ReloadTime, now).value
      ensures Mounted != null && shot.None? ==> Mounted.State() == old(Mounted.State())
    {
      if Mounted != null {
        shot := Mounted.Fire(owner, this, now);
      } else {
        shot := None;
      }
    }
    /** Mount.TurnTowards: nothing happens when no weapon is mounted. */
    method TurnTowards(desiredAngle: real, timeDelta: real)
      modifies this`Offset
      ensures Mounted == null ==> Offset == old(Offset)
      ensures Mounted != null ==> Offset == TurnedOffset(Class, old(Offset), desiredAngle, Class.TurnSpeed * timeDelta)
      ensures Mounted != null && Class.MaxTurn == 0.0 ==> Offset == 0.0
    {
      if Mounted == null { return; }
      Offset := TurnedOffset(Class, Offset, desiredAngle, Class.TurnSpeed * timeDelta);
    }
  }

  // ---------------------------------------------------------------- volleys

  /** A mount as a volley sees it: its weapon (null when empty) and its
      bearing relative to the ship, the class's centre angle plus the
      turret's offset. */
  datatype Station = Station(Gun: Weapon?, Bearing: real)

  /** The stations of a ship's mounts, in order. */
  function Stations(mounts: seq<Mount>): (r: seq<Station>)
    reads mounts
    ensures |r| == |mounts|
    ensures forall i | 0 <= i < |mounts| :: r[i] == Station(mounts[i].Mounted, mounts[i].Class.CenterAngle + mounts[i].Offset)
  {
    seq(|mounts|, i requires 0 <= i < |mounts| reads mounts => Station(mounts[i].Mounted, mounts[i].Class.CenterAngle + mounts[i].Offset))
  }

  /** The shots of a volley and the trigger states it leaves behind. */
  datatype Volley = Volley(Shots: seq<Shot>, States: map<Weapon, Trigger>)

  /** The trigger states of a set of weapons. */
  function TriggerStates(ws: set<Weapon>): (r: map<Weapon, Trigger>)
    reads ws
    ensures r.Keys == ws && forall w | w in ws :: r[w] == w.State()
  {
    map w | w in ws :: w.State()
  }

  /** The first n stations fire one after another at time `now` on a ship
      heading `angle`, from the trigger states `states`: each fires its
      weapon's class along its absolute angle when FireGate opens, and a
      weapon on two stations fires the second time from the state the first
      left. */
  function Salvo(stations: seq<Station>, n: nat, states: map<Weapon, Trigger>, angle: real, now: real): (v: Volley)
    requires n <= |stations|
    ensures v.States.Keys == states.Keys
    ensures |v.Shots| <= n
  {
    if n == 0 then Volley([], states)
    else VolleyStep(Salvo(stations, n - 1, states, angle, now), stations[n - 1], angle, now)
  }

  /** One station's turn in a volley: it adds its shot and its weapon's new
      state when FireGate opens on the state the volley so far left, and
      changes nothing otherwise. */
  function VolleyStep(v: Volley, s: Station, angle: real, now: real): (r: Volley)
    ensures r.States.Keys == v.States.Keys
    ensures |v.Shots| <= |r.Shots| <= |v.Shots| + 1
  {
    if s.Gun != null && s.Gun in v.States && FireGate(v.States[s.Gun], s.Gun.Class.ReloadTime, now).Some? then
      Volley(v.Shots + [Shot(s.Gun.Class, angle + s.Bearing)], v.States[s.Gun := FireGate(v.States[s.Gun], s.Gun.Class.ReloadTime, now).value])
    else v
  }

  /** A mount firing as Mount.Fire promises is one step of the volley: the
      shot it returns, if any, is the step's, and `after`, its weapon's new
      trigger state, is the one the step records. */
  lemma FiredStep(v: Volley, s: Station, angle: real, now: real, shot: Option<Shot>, after: Trigger)
    requires s.Gun == null ==> shot.None?
    requires s.Gun != null ==> s.Gun in v.States
    requires s.Gun != null ==> shot.Some? == FireGate(v.States[s.Gun], s.Gun.Class.ReloadTime, now).Some?
    requires s.Gun != null && shot.Some? ==>
      shot.value == Shot(s.Gun.Class, angle + s.Bearing) && after == FireGate(v.States[s.Gun], s.Gun.Class.ReloadTime, now).value
    requires s.Gun != null && shot.None? ==> after == v.States[s.Gun]
    ensures VolleyStep(v, s, angle, now).Shots == v.Shots + if shot.Some? then [shot.value] else []
    ensures s.Gun == null ==> VolleyStep(v, s, angle, now).States == v.States
    ensures s.Gun != null ==> VolleyStep(v, s, angle, now).States == v.States[s.Gun := after]
  {
    if s.Gun != null && shot.None? {
      assert v.States[s.Gun := after] == v.States;
    }
  }

  /** Stations without weapons fire nothing and change no trigger state. */
  lemma {:induction false} SalvoOfEmptyStations(stations: seq<Station>, n: nat, states: map<Weapon, Trigger>, angle: real, now: real)
    requires n <= |stations|
    requires forall i | 0 <= i < n :: stations[i].Gun == null
    ensures Salvo(stations, n, states, angle, now) == Volley([], states)
  {
    if n > 0 {
      SalvoOfEmptyStations(stations, n - 1, states, angle, now);
    }
  }

  /** The weapons on the first n stations. */
  function Armed(stations: seq<Station>, n: nat): set<Weapon>
    requires n <= |stations|
  {
    set i | 0 <= i < n && stations[i].Gun != null :: stations[i].Gun
  }

  /** No weapon sits on two stations. */
  predicate DistinctWeapons(stations: seq<Station>)
  {
    forall i, j | 0 <= i < j < |stations| && stations[i].Gun != null :: stations[i].Gun != stations[j].Gun
  }

  /** The state a pull of the trigger leaves: FireGate's when it fires,
      the old one when it does not. */
  function Pulled(t: Trigger, reloadTime: real, now: real): Trigger
  {
    if FireGate(t, reloadTime, now).Some? then FireGate(t, reloadTime, now).value else t
  }

  /** The reference volley: each of the first n stations' shot judged on its
      own weapon's starting state alone. */
  function OwnShots(stations: seq<Station>, n: nat, states: map<Weapon, Trigger>, angle: real, now: real): seq<Shot>
    requires n <= |stations|
  {
    if n == 0 then []
    else
      var s := stations[n - 1];
      OwnShots(stations, n - 1, states, angle, now) +
        if s.Gun != null && s.Gun in states && FireGate(states[s.Gun], s.Gun.Class.ReloadTime, now).Some?
        then [Shot(s.Gun.Class, angle + s.Bearing)] else []
  }

  /** A volley leaves the trigger state of every weapon on none of its
      stations as it found it. */
  lemma {:induction false} SalvoUntouched(stations: seq<Station>, n: nat, states: map<Weapon, Trigger>, angle: real, now: real)
    requires n <= |stations|
    ensures forall w | w in states && w !in Armed(stations, n) :: Salvo(stations, n, states, angle, now).States[w] == states[w]
  {
    if n > 0 {
      SalvoUntouched(stations, n - 1, states, angle, now);
      assert Armed(stations, n - 1) <= Armed(stations, n);
    }
  }

  /** With no weapon shared between stations, the n-th station fires from
      its weapon's starting state. */
  lemma FreshWeapon(stations: seq<Station>, n: nat, states: map<Weapon, Trigger>, angle: real, now: real)
    requires 0 < n <= |stations| && DistinctWeapons(stations)
    requires stations[n - 1].Gun != null && stations[n - 1].Gun in states
    ensures Salvo(stations, n - 1, states, angle, now).States[stations[n - 1].Gun] == states[stations[n - 1].Gun]
  {
    var w := stations[n - 1].Gun;
    SalvoUntouched(stations, n - 1, states, angle, now);
    forall i | 0 <= i < n - 1 && stations[i].Gun != null
      ensures stations[i].Gun != w
    {
    }
    assert w !in Armed(stations, n - 1);
  }

  /** With no weapon shared between stations, a volley's shots are the
      reference volley's: every station fires independently. */
  lemma {:induction false} SalvoShotsOfDistinctWeapons(stations: seq<Station>, n: nat, states: map<Weapon, Trigger>, angle: real, now: real)
    requires n <= |stations| && DistinctWeapons(stations)
    ensures Salvo(stations, n, states, angle, now).Shots == OwnShots(stations, n, states, angle, now)
  {
    if n > 0 {
      SalvoShotsOfDistinctWeapons(stations, n - 1, states, angle, now);
      var w := stations[n - 1].Gun;
      if w != null && w in states {
        FreshWeapon(stations, n, states, angle, now);
      }
    }
  }

  /** With no weapon shared between stations, each mounted weapon ends a
      volley in the state one pull of its own trigger leaves. */
  lemma {:induction false} SalvoStatesOfDistinctWeapons(stations: seq<Station>, n: nat, states: map<Weapon, Trigger>, angle: real, now: real)
    requires n <= |stations| && DistinctWeapons(stations)
    ensures forall i | 0 <= i < n && stations[i].Gun != null && stations[i].Gun in states ::
      Salvo(stations, n, states, angle, now).States[stations[i].Gun] ==
        Pulled(states[stations[i].Gun], stations[i].Gun.Class.ReloadTime, now)
  {
    if n > 0 {
      SalvoStatesOfDistinctWeapons(stations, n - 1, states, angle, now);
      var w := stations[n - 1].Gun;
      var v0 := Salvo(stations, n - 1, states, angle, now);
      var v := Salvo(stations, n, states, angle, now);
      if w != null && w in states {
        FreshWeapon(stations, n, states, angle, now);
      }
      forall i | 0 <= i < n && stations[i].Gun != null && stations[i].Gun in states
        ensures v.States[stations[i].Gun] == Pulled(states[stations[i].Gun], stations[i].Gun.Class.ReloadTime, now)
      {
        if i < n - 1 {
          assert stations[i].Gun != w;
          assert v.States[stations[i].Gun] == v0.States[stations[i].Gun];
        }
      }
    }
  }

  // ------------------------------------------------------------------ ships

  /** The turn Ship.TurnTowards applies: towards the desired angle the
      shorter way round, limited to `max` (TurnSpeed*TimeDelta). */
  function ShipTurn(angle: real, desired: real, max: real): real
  {
    ClampTurn(WrapTurn(desired - angle), max)
  }

  /** The heading after Ship.TurnTowards. */
  function TurnedHeading(angle: real, desired: real, turnSpeed: real, timeDelta: real): real
  {
    NormalizeAngle(angle + ShipTurn(angle, desired, turnSpeed * timeDelta))
  }

  /** From a normalised heading, a ship turns by at most `max` and by at most
      half a turn, in the direction of the shorter way round, keeps its
      heading normalised, and reaches the desired heading as soon as it is
      within `max`. */
  lemma ShipTurnSound(angle: real, desired: real, turnSpeed: real, timeDelta: real)
    requires 0.0 <= angle < TwoPI && 0.0 <= desired < TwoPI && turnSpeed * timeDelta >= 0.0
    ensures var max := turnSpeed * timeDelta;
      var turn := ShipTurn(angle, desired, max);
      Abs(turn) <= max && Abs(turn) <= PI &&
      (turn > 0.0 ==> WrapTurn(desired - angle) > 0.0) &&
      (turn < 0.0 ==> WrapTurn(desired - angle) < 0.0) &&
      0.0 <= TurnedHeading(angle, desired, turnSpeed, timeDelta) < TwoPI &&
      (Abs(WrapTurn(desired - angle)) <= max ==> TurnedHeading(angle, desired, turnSpeed, timeDelta) == desired)
  {
    var w := WrapTurn(desired - angle);
    assert -PI <= w <= PI;
  }

  /** Ship: a SpaceObject body with speed, throttle, performance limits and mounts. */
  class Ship {
    const Body: SpaceObject
    var Throttle: real
    var Speed: real
    const MaxSpeed: real
    const MaxAccel: real
    const TurnSpeed: real
    const Mounts: seq<Mount>

    constructor (body: SpaceObject, maxSpeed: real, maxAccel: real, turnSpeed: real, mounts: seq<Mount>)
      ensures Body == body && MaxSpeed == maxSpeed && MaxAccel == maxAccel && TurnSpeed == turnSpeed
      ensures Mounts == mounts && Throttle == 0.0 && Speed == 0.0
    {
      Body, MaxSpeed, MaxAccel, TurnSpeed, Mounts := body, maxSpeed, maxAccel, turnSpeed, mounts;
      Throttle, Speed := 0.0, 0.0;
    }

    /** The weapons on the ship's mounts. */
    function Weapons(): set<Weapon>
      reads Mounts
    {
      set m | m in Mounts && m.Mounted != null :: m.Mounted
    }

    /** The firing loop at the end of Player.Update: every mount fires. */
    method FireMounts(now: real) returns (shots: seq<Shot>)
      modifies Weapons()
      ensures var v := Salvo(Stations(Mounts), |Mounts|, old(TriggerStates(Weapons())), Body.Angle, now);
        shots == v.Shots && forall w | w in Weapons() :: w.State() == v.States[w]
      ensures |shots| <= |Mounts|
    {
      ghost var ws := Weapons();
      ghost var states0 := TriggerStates(ws);
      ghost var st := Stations(Mounts);
      ghost var angle := Body.Angle;
      shots := [];
      var i := 0;
      while i < |Mounts|
        invariant 0 <= i <= |Mounts|
        invariant shots == Salvo(st, i, states0, angle, now).Shots
        invariant forall w | w in ws :: w.State() == Salvo(st, i, states0, angle, now).States[w]
      {
        var m := Mounts[i];
        ghost var v := Salvo(st, i, states0, angle, now);
        ghost var gun := m.Mounted;
        assert st[i] == Station(gun, m.Class.CenterAngle + m.Offset);
        assert gun != null ==> gun in ws && gun.State() == v.States[gun];
        var shot := m.Fire(Body, now);
        FiredStep(v, st[i], angle, now, shot, if gun != null then gun.State() else Trigger(0.0, 0));
        if shot.Some? {
          shots := shots + [shot.value];
        }
        i := i + 1;
      }
    }

    /** Ship.TurnTowards(double). */
    method TurnTowards(desiredAngle: real, timeDelta: real)
      modifies Body`Angle
      ensures Body.Angle == TurnedHeading(old(Body.Angle), desiredAngle, TurnSpeed, timeDelta)
    {
      var turn := desiredAngle - Body.Angle;
      var max := TurnSpeed * timeDelta;
      if turn > PI {
        turn := turn - TwoPI;
      } else if turn < -PI {
        turn := turn + TwoPI;
      }
      if Abs(turn) > max {
        turn := if turn > 0.0 then max else if turn < 0.0 then -max else 0.0;
      }
      Body.Angle := NormalizeAngle(Body.Angle + turn);
    }
  }

  // ---------------------------------------------------------------- bullets

  /** How long a bullet lives, in seconds. */
  const BulletLifetime: real := 1.5

  class Bullet {
    const Body: SpaceObject
    const Velocity: Vector
    const Born: real

    /** `angle` is the direction of `vel` (vel.Angle in the game). */
    constructor (pos: Point, vel: Vector, angle: real, now: real)
      ensures fresh(Body) && Body.Pos == pos && Body.Angle == angle && Body.HitClass == HitClass.Bullet
      ensures Body.Flags == 0 && Body.Map == null && Velocity == vel && Born == now
    {
      Body := new SpaceObject(pos, angle, HitClass.Bullet);
      Velocity, Born := vel, now;
    }

    /** Bullet.Update: dies once older than the lifetime, otherwise flies on. */
    method Update(now: real, timeDelta: real)
      modifies Body`Pos, Body`Flags
      ensures now - Born > BulletLifetime ==>
        Body.Is(Dead) && Body.Flags == WithFlag(old(Body.Flags), Dead, true) && Body.Pos == old(Body.Pos)
      ensures now - Born <= BulletLifetime ==>
        Body.Pos == Offset(old(Body.Pos), Velocity, timeDelta) && Body.Flags == old(Body.Flags)
    {
      if now - Born > BulletLifetime {
        Body.Set(Dead, true);
      } else {
        Body.Pos := Offset(Body.Pos, Velocity, timeDelta);
      }
    }
  }

  // ----------------------------------------------------------------- player

  /** The device state Player.Update polls, already resolved: right button
      released this frame, bearing from the ship to the cursor, Tab, Q and A
      held, backquote released this frame, left button held. */
  datatype PlayerInput = PlayerInput(
    ToggleTurn: bool, CursorBearing: real, Boost: bool, ThrottleUp: bool,
    ThrottleDown: bool, ThrottleReset: bool, FireHeld: bool)

  datatype Drive = Drive(Throttle: real, Speed: real)

  /** The throttle and speed after one frame of Player.Update. */
  function PlayerDrive(d: Drive, maxSpeed: real, maxAccel: real, input: PlayerInput, timeDelta: real): (r: Drive)
    // boosting: throttle untouched, speed capped at 2.5 times the maximum
    ensures input.Boost ==> r.Throttle == d.Throttle && r.Speed <= 2.5 * maxSpeed
    ensures input.Boost && d.Speed + maxAccel * maxSpeed * 2.0 * timeDelta <= 2.5 * maxSpeed ==>
      r.Speed == d.Speed + maxAccel * maxSpeed * 2.0 * timeDelta
    // otherwise: the throttle stays within [0, 1] and backquote zeroes it
    ensures !input.Boost && 0.0 <= d.Throttle <= 1.0 && timeDelta >= 0.0 ==> 0.0 <= r.Throttle <= 1.0
    ensures !input.Boost && input.ThrottleReset ==> r.Throttle == 0.0
    ensures !input.Boost && !input.ThrottleReset && !input.ThrottleUp && !input.ThrottleDown ==> r.Throttle == d.Throttle
    // the speed then approaches the new throttle's share of the maximum
    ensures !input.Boost ==> r.Speed == Approach(d.Speed, Throttled(d.Throttle, input, timeDelta) * maxSpeed, maxAccel * maxSpeed * timeDelta)
  {
    if input.Boost then Drive(d.Throttle, Boosted(d.Speed, maxSpeed, maxAccel * maxSpeed * 2.0 * timeDelta))
    else Drive(Throttled(d.Throttle, input, timeDelta),
               Approach(d.Speed, Throttled(d.Throttle, input, timeDelta) * maxSpeed, maxAccel * maxSpeed * timeDelta))
  }

  /** The speed after Tab added `accel`, capped at 2.5 times the maximum. */
  function Boosted(speed: real, maxSpeed: real, accel: real): (s: real)
    ensures s <= 2.5 * maxSpeed
    ensures speed + accel <= 2.5 * maxSpeed ==> s == speed + accel
  {
    if speed + accel < 2.5 * maxSpeed then speed + accel else 2.5 * maxSpeed
  }

  /** The throttle after Q or A moved it by the frame time within [0, 1]
      and backquote zeroed it. */
  function Throttled(throttle: real, input: PlayerInput, timeDelta: real): (t: real)
    ensures 0.0 <= throttle <= 1.0 && timeDelta >= 0.0 ==> 0.0 <= t <= 1.0
    ensures input.ThrottleReset ==> t == 0.0
    ensures !input.ThrottleReset && !input.ThrottleUp && !input.ThrottleDown ==> t == throttle
  {
    var t :=
      if input.ThrottleUp then (if throttle + timeDelta < 1.0 then throttle + timeDelta else 1.0)
      else if input.ThrottleDown then (if throttle - timeDelta > 0.0 then throttle - timeDelta else 0.0)
      else throttle;
    if input.ThrottleReset then 0.0 else t
  }

  /** The speed moved towards `target` by at most `max` (the acceleration
      clamped to `max*Math.Sign(accel)`), never past it. */
  function Approach(speed: real, target: real, max: real): (s: real)
    ensures max >= 0.0 ==> Abs(s - speed) <= max && Abs(target - s) <= Abs(target - speed)
    ensures Abs(target - speed) <= max ==> s == target
  {
    speed + ClampTurn(target - speed, max)
  }

  class Player {
    const Ship: Ship
    var turnTowardsCursor: bool

    constructor (ship: Ship)
      ensures Ship == ship && !turnTowardsCursor
    {
      Ship := ship;
      turnTowardsCursor := false;
    }

    /** Player.Update without aiming the mounts.  `heading(a)` is the unit
        vector of angle a (Vector(1, 0).Rotated(a) in the game). */
    method Update(input: PlayerInput, heading: real -> Vector, now: real, timeDelta: real)
      returns (shots: seq<Shot>)
      modifies this, Ship, Ship.Body, Ship.Weapons()
      ensures turnTowardsCursor == (old(turnTowardsCursor) != input.ToggleTurn)
      ensures !turnTowardsCursor ==> Ship.Body.Angle == old(Ship.Body.Angle)
      ensures turnTowardsCursor ==>
        Ship.Body.Angle == TurnedHeading(old(Ship.Body.Angle), input.CursorBearing, Ship.TurnSpeed, timeDelta)
      ensures Drive(Ship.Throttle, Ship.Speed) ==
        PlayerDrive(old(Drive(Ship.Throttle, Ship.Speed)), Ship.MaxSpeed, Ship.MaxAccel, input, timeDelta)
      ensures Ship.Body.Pos == Advance(old(Ship.Body.Pos), heading(Ship.Body.Angle), Ship.Speed, timeDelta)
      ensures !input.FireHeld ==> shots == [] && forall w | w in old(Ship.Weapons()) :: w.State() == old(w.State())
      ensures input.FireHeld ==>
        var v := Salvo(Stations(Ship.Mounts), |Ship.Mounts|, old(TriggerStates(Ship.Weapons())), Ship.Body.Angle, now);
        shots == v.Shots && forall w | w in Ship.Weapons() :: w.State() == v.States[w]
      ensures |shots| <= |Ship.Mounts|
    {
      Steer(input, heading, timeDelta);
      shots := [];
      if input.FireHeld {
        shots := Ship.FireMounts(now);
      }
    }

    /** The part of Player.Update before the firing loop: the right button
        toggles turning towards the cursor, the ship turns, Tab, Q, A and
        backquote drive the throttle and speed, and the ship moves along its
        heading. */
    method Steer(input: PlayerInput, heading: real -> Vector, timeDelta: real)
      modifies this, Ship, Ship.Body
      ensures turnTowardsCursor == (old(turnTowardsCursor) != input.ToggleTurn)
      ensures !turnTowardsCursor ==> Ship.Body.Angle == old(Ship.Body.Angle)
      ensures turnTowardsCursor ==>
        Ship.Body.Angle == TurnedHeading(old(Ship.Body.Angle), input.CursorBearing, Ship.TurnSpeed, timeDelta)
      ensures Drive(Ship.Throttle, Ship.Speed) ==
        PlayerDrive(old(Drive(Ship.Throttle, Ship.Speed)), Ship.MaxSpeed, Ship.MaxAccel, input, timeDelta)
      ensures Ship.Body.Pos == Advance(old(Ship.Body.Pos), heading(Ship.Body.Angle), Ship.Speed, timeDelta)
    {
      if input.ToggleTurn {
        turnTowardsCursor := !turnTowardsCursor;
      }
      if turnTowardsCursor {
        Ship.TurnTowards(input.CursorBearing, timeDelta);
      }
      var d := PlayerDrive(Drive(Ship.Throttle, Ship.Speed), Ship.MaxSpeed, Ship.MaxAccel, input, timeDelta);
      Ship.Throttle, Ship.Speed := d.Throttle, d.Speed;
      Ship.Body.Pos := Advance(Ship.Body.Pos, heading(Ship.Body.Angle), Ship.Speed, timeDelta);
    }
  }
}
