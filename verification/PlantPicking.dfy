/** Picking in the 3D plant view: the ray from the cursor against every pillar, and the
    ground plane when no pillar is hit. */
module PlantPicking {

  datatype Vec = Vec(x: real, y: real, z: real)

  datatype Bounds = Bounds(lo: Vec, hi: Vec)

  datatype Device = Device(x: real, z: real, height: real)

  function Abs(a: real): real { if a < 0.0 then -a else a }

  function Max(a: real, b: real): real { if a < b then b else a }

  function Min(a: real, b: real): real { if b < a then b else a }

  const REACH := 1000000000.0

  const TINY := 0.000000001

  // ---- What a hit is ----

  /** The coordinate the ray has reached at `t`, along one axis. */
  function Reached(o: real, d: real, t: real): real { o + t * d }

  predicate InSlab(o: real, d: real, lo: real, hi: real, t: real) {
    lo <= Reached(o, d, t) <= hi
  }

  /** The ray `o + t d` is in the box at `t`. */
  predicate Hits(o: Vec, d: Vec, b: Bounds, t: real) {
    && InSlab(o.x, d.x, b.lo.x, b.hi.x, t)
    && InSlab(o.y, d.y, b.lo.y, b.hi.y, t)
    && InSlab(o.z, d.z, b.lo.z, b.hi.z, t)
  }

  predicate Ordered(b: Bounds) {
    b.lo.x <= b.hi.x && b.lo.y <= b.hi.y && b.lo.z <= b.hi.z
  }

  /** A component too small to divide by is treated as no movement at all. */
  function Snap(d: real): real { if Abs(d) < TINY then 0.0 else d }

  /** The direction that the search really follows. */
  function Snapped(d: Vec): Vec { Vec(Snap(d.x), Snap(d.y), Snap(d.z)) }

  // ---- The slab test ----

  lemma DivideAtMost(a: real, t: real, d: real)
    requires d > 0.0
    ensures a / d <= t <==> a <= t * d
    ensures t <= a / d <==> t * d <= a
  {
    assert a == (a / d) * d;
    if a / d <= t { Scale(a / d, t, d); } else { ScaleStrict(t, a / d, d); }
    if t <= a / d { Scale(t, a / d, d); } else { ScaleStrict(a / d, t, d); }
  }

  lemma Scale(a: real, b: real, d: real)
    requires a <= b && d > 0.0
    ensures a * d <= b * d
  {
  }

  lemma ScaleStrict(a: real, b: real, d: real)
    requires a < b && d > 0.0
    ensures a * d < b * d
  {
  }

  lemma DivideNegative(a: real, d: real)
    requires d < 0.0
    ensures a / d == -a / -d
  {
    assert a == (a / d) * d;
    assert (a / d) * d == (-(a / d)) * (-d);
  }

  /** The parameters for which the ray is between two planes form an interval. */
  lemma SlabInterval(o: real, d: real, lo: real, hi: real, t: real)
    requires d != 0.0 && lo <= hi
    ensures InSlab(o, d, lo, hi, t)
       <==> Min((lo - o) / d, (hi - o) / d) <= t <= Max((lo - o) / d, (hi - o) / d)
  {
    var a, b := lo - o, hi - o;
    if d > 0.0 {
      DivideAtMost(a, t, d);
      DivideAtMost(b, t, d);
      DivideAtMost(a, b / d, d);
    } else {
      DivideNegative(a, d);
      DivideNegative(b, d);
      DivideAtMost(-a, t, -d);
      DivideAtMost(-b, t, -d);
      DivideAtMost(-b, -a / -d, -d);
      assert t * -d == -(t * d);
    }
  }

  function Axis(v: Vec, k: nat): real { if k == 0 then v.x else if k == 1 then v.y else v.z }

  predicate InAxis(o: Vec, d: Vec, b: Bounds, k: nat, t: real) {
    InSlab(Axis(o, k), Snap(Axis(d, k)), Axis(b.lo, k), Axis(b.hi, k), t)
  }

  /** In the first `k` of the three slabs. */
  predicate InSlabs(o: Vec, d: Vec, b: Bounds, k: nat, t: real) {
    (k > 0 ==> InAxis(o, d, b, 0, t)) && (k > 1 ==> InAxis(o, d, b, 1, t)) && (k > 2 ==> InAxis(o, d, b, 2, t))
  }

  lemma AllSlabs(o: Vec, d: Vec, b: Bounds, t: real)
    ensures InSlabs(o, d, b, 3, t) <==> Hits(o, Snapped(d), b, t)
  {
    hide InSlab, Snap;
  }

  lemma NextSlab(o: Vec, d: Vec, b: Bounds, k: nat, t: real)
    requires k < 3
    ensures InSlabs(o, d, b, k + 1, t) <==> InSlabs(o, d, b, k, t) && InAxis(o, d, b, k, t)
  {
    hide InAxis;
  }

  predicate Between(a: real, b: real, t: real) { a <= t <= b }

  /** [tmin, tmax] is the part of the search range that lies in the first `k` slabs. */
  ghost predicate Clipped(o: Vec, d: Vec, b: Bounds, k: nat, tmin: real, tmax: real) {
    forall s :: Between(tmin, tmax, s) <==> Between(-REACH, REACH, s) && InSlabs(o, d, b, k, s)
  }

  lemma ClippedAtFirst(o: Vec, d: Vec, b: Bounds)
    ensures Clipped(o, d, b, 0, -REACH, REACH)
  {
    hide InAxis;
  }

  lemma ClippedLevel(o: Vec, d: Vec, b: Bounds, k: nat, tmin: real, tmax: real)
    requires k < 3 && Clipped(o, d, b, k, tmin, tmax) && Abs(Axis(d, k)) < TINY
    ensures var outside := Axis(o, k) < Axis(b.lo, k) || Axis(o, k) > Axis(b.hi, k);
            if outside then Clipped(o, d, b, k + 1, 1.0, 0.0) else Clipped(o, d, b, k + 1, tmin, tmax)
  {
    hide InAxis, InSlabs;
    var outside := Axis(o, k) < Axis(b.lo, k) || Axis(o, k) > Axis(b.hi, k);
    var lo, hi := if outside then 1.0 else tmin, if outside then 0.0 else tmax;
    forall s ensures Between(lo, hi, s) <==> Between(-REACH, REACH, s) && InSlabs(o, d, b, k + 1, s) {
      NextSlab(o, d, b, k, s);
      LevelAxis(o, d, b, k, s);
      assert Between(tmin, tmax, s) <==> Between(-REACH, REACH, s) && InSlabs(o, d, b, k, s);
    }
  }

  lemma LevelAxis(o: Vec, d: Vec, b: Bounds, k: nat, t: real)
    requires Abs(Axis(d, k)) < TINY
    ensures InAxis(o, d, b, k, t) <==> Axis(b.lo, k) <= Axis(o, k) <= Axis(b.hi, k)
  {
    assert t * 0.0 == 0.0;
  }

  lemma ClippedSlanted(o: Vec, d: Vec, b: Bounds, k: nat, tmin: real, tmax: real)
    requires k < 3 && Ordered(b) && Clipped(o, d, b, k, tmin, tmax) && Abs(Axis(d, k)) >= TINY
    ensures var t1, t2 := (Axis(b.lo, k) - Axis(o, k)) / Axis(d, k), (Axis(b.hi, k) - Axis(o, k)) / Axis(d, k);
            Clipped(o, d, b, k + 1, Max(tmin, Min(t1, t2)), Min(tmax, Max(t1, t2)))
  {
    hide InAxis, InSlabs;
    var t1, t2 := (Axis(b.lo, k) - Axis(o, k)) / Axis(d, k), (Axis(b.hi, k) - Axis(o, k)) / Axis(d, k);
    var lo, hi := Max(tmin, Min(t1, t2)), Min(tmax, Max(t1, t2));
    forall s ensures Between(lo, hi, s) <==> Between(-REACH, REACH, s) && InSlabs(o, d, b, k + 1, s) {
      NextSlab(o, d, b, k, s);
      SlantedAxis(o, d, b, k, s);
      assert Between(tmin, tmax, s) <==> Between(-REACH, REACH, s) && InSlabs(o, d, b, k, s);
    }
  }

  lemma SlantedAxis(o: Vec, d: Vec, b: Bounds, k: nat, t: real)
    requires Ordered(b) && Abs(Axis(d, k)) >= TINY
    ensures var t1, t2 := (Axis(b.lo, k) - Axis(o, k)) / Axis(d, k), (Axis(b.hi, k) - Axis(o, k)) / Axis(d, k);
            InAxis(o, d, b, k, t) <==> Between(Min(t1, t2), Max(t1, t2), t)
  {
    hide InSlab;
    SlabInterval(Axis(o, k), Axis(d, k), Axis(b.lo, k), Axis(b.hi, k), t);
  }

  lemma EmptyMeansMiss(o: Vec, d: Vec, b: Bounds, k: nat, tmin: real, tmax: real)
    requires k <= 3 && Clipped(o, d, b, k, tmin, tmax) && tmin > tmax
    ensures forall t | 0.0 <= t <= REACH :: !Hits(o, Snapped(d), b, t)
  {
    hide InAxis, Hits;
    forall t | 0.0 <= t <= REACH ensures !Hits(o, Snapped(d), b, t) {
      AllSlabs(o, d, b, t);
      assert Between(-REACH, REACH, t) && !Between(tmin, tmax, t);
    }
  }

  lemma ClippedMeansHit(o: Vec, d: Vec, b: Bounds, tmin: real, tmax: real, t: real)
    requires Clipped(o, d, b, 3, tmin, tmax) && -REACH <= t <= REACH
    ensures Hits(o, Snapped(d), b, t) <==> tmin <= t <= tmax
  {
    hide InAxis, InSlabs, Hits;
    AllSlabs(o, d, b, t);
    assert Between(tmin, tmax, t) <==> Between(-REACH, REACH, t) && InSlabs(o, d, b, 3, t);
  }

  lemma ClippedInRange(o: Vec, d: Vec, b: Bounds, k: nat, tmin: real, tmax: real)
    requires Clipped(o, d, b, k, tmin, tmax) && tmin <= tmax
    ensures -REACH <= tmin <= tmax <= REACH
  {
    hide InSlabs;
    assert Between(tmin, tmax, tmin) && Between(tmin, tmax, tmax);
  }

  /** Where the ray meets the box first: -1 if it does not within the search distance,
      and otherwise the least parameter from 0 on at which the ray is in the box. */
  method RayBox(o: Vec, d: Vec, b: Bounds) returns (t: real)
    requires Ordered(b)
    ensures t == -1.0 || 0.0 <= t <= REACH
    ensures t == -1.0 ==> forall s | 0.0 <= s <= REACH :: !Hits(o, Snapped(d), b, s)
    ensures t != -1.0 ==> Hits(o, Snapped(d), b, t) && forall s | 0.0 <= s < t :: !Hits(o, Snapped(d), b, s)
  {
    hide Clipped, Hits, Snapped;
    var tmin, tmax := -REACH, REACH;
    var os, ds := [o.x, o.y, o.z], [d.x, d.y, d.z];
    var lo, hi := [b.lo.x, b.lo.y, b.lo.z], [b.hi.x, b.hi.y, b.hi.z];
    ClippedAtFirst(o, d, b);
    for k := 0 to 3
      invariant tmin <= tmax && Clipped(o, d, b, k, tmin, tmax)
    {
      if Abs(ds[k]) < TINY {
        ClippedLevel(o, d, b, k, tmin, tmax);
        if os[k] < lo[k] || os[k] > hi[k] {
          EmptyMeansMiss(o, d, b, k + 1, 1.0, 0.0);
          return -1.0;
        }
      } else {
        ClippedSlanted(o, d, b, k, tmin, tmax);
        var t1, t2 := (lo[k] - os[k]) / ds[k], (hi[k] - os[k]) / ds[k];
        if t1 > t2 { t1, t2 := t2, t1; }
        tmin := Max(tmin, t1);
        tmax := Min(tmax, t2);
        if tmin > tmax {
          EmptyMeansMiss(o, d, b, k + 1, tmin, tmax);
          return -1.0;
        }
      }
    }
    ClippedInRange(o, d, b, 3, tmin, tmax);
    forall s | -REACH <= s <= REACH ensures Hits(o, Snapped(d), b, s) <==> tmin <= s <= tmax {
      ClippedMeansHit(o, d, b, tmin, tmax, s);
    }
    t := if tmax < 0.0 then -1.0 else Max(tmin, 0.0);
  }

  /** No component is tiny without being zero. */
  predicate Clear(d: Vec) {
    && (d.x == 0.0 || Abs(d.x) >= 0.000000001)
    && (d.y == 0.0 || Abs(d.y) >= 0.000000001)
    && (d.z == 0.0 || Abs(d.z) >= 0.000000001)
  }

  /** The search and the true ray hit the box at the same moments, from wherever they start. */
  ghost predicate SearchIsExact(d: Vec, b: Bounds) {
    forall o: Vec, t: real :: 0.0 <= t <= REACH ==> (Hits(o, d, b, t) <==> Hits(o, Snapped(d), b, t))
  }

  /** Where a ray must start to be, after one step, at the low face of a slab or, if the
      component is tiny, to have just left it. */
  function StartBeside(d: real, lo: real, hi: real): real {
    if d == Snap(d) then lo - d else if d > 0.0 then hi else lo
  }

  lemma OneStepIn(d: real, lo: real, hi: real)
    requires lo <= hi
    ensures InSlab(StartBeside(d, lo, hi), Snap(d), lo, hi, 1.0)
    ensures InSlab(StartBeside(d, lo, hi), d, lo, hi, 1.0) <==> d == Snap(d)
  {
  }

  /** For any box: the search follows the true ray, from every origin, exactly when no
      component of the direction is tiny without being zero. */
  lemma SearchIsExactWhenClear(d: Vec, b: Bounds)
    requires Ordered(b)
    ensures Clear(d) <==> SearchIsExact(d, b)
  {
    if Clear(d) {
      assert Snapped(d) == d;
    } else {
      var o := Vec(StartBeside(d.x, b.lo.x, b.hi.x), StartBeside(d.y, b.lo.y, b.hi.y), StartBeside(d.z, b.lo.z, b.hi.z));
      OneStepIn(d.x, b.lo.x, b.hi.x);
      OneStepIn(d.y, b.lo.y, b.hi.y);
      OneStepIn(d.z, b.lo.z, b.hi.z);
      hide InSlab, Snap, StartBeside;
      assert Hits(o, Snapped(d), b, 1.0);
      assert d.x != Snap(d.x) || d.y != Snap(d.y) || d.z != Snap(d.z) by { TinyComponent(d); }
      assert !Hits(o, d, b, 1.0);
    }
  }

  lemma TinyComponent(d: Vec)
    requires !Clear(d)
    ensures d.x != Snap(d.x) || d.y != Snap(d.y) || d.z != Snap(d.z)
  {
  }

  // ---- Picking ----

  function PillarBox(d: Device, rise: real): Bounds {
    Bounds(Vec(d.x - 0.7, 0.0, d.z - 0.7), Vec(d.x + 0.7, d.height * 7.0 * rise, d.z + 0.7))
  }

  predicate Standing(devices: seq<Device>, rise: real) {
    forall i | 0 <= i < |devices| :: devices[i].height * 7.0 * rise >= 0.0
  }

  /** Of any pillar: a nearly level, nearly upright or nearly sideways ray that is not
      exactly so is searched for wrongly from somewhere, and no other ray is. */
  lemma PillarSearchIsExactWhenClear(device: Device, rise: real, d: Vec)
    requires device.height * 7.0 * rise >= 0.0
    ensures Clear(d) <==> SearchIsExact(d, PillarBox(device, rise))
  {
    SearchIsExactWhenClear(d, PillarBox(device, rise));
  }

  /** A ray is in a pillar while it is within 0.7 of its middle along x and z and no higher
      than seven times its height, as far as the pillars have risen. */
  lemma InPillar(device: Device, rise: real, a: Vec, d: Vec, t: real)
    ensures Hits(a, d, PillarBox(device, rise), t)
       <==> && Abs(a.x + t * d.x - device.x) <= 0.7 && Abs(a.z + t * d.z - device.z) <= 0.7
            && 0.0 <= a.y + t * d.y <= 7.0 * (device.height * rise)
  {
    var box := PillarBox(device, rise);
    Regrouped(device.height, rise);
    assert box.hi.y == 7.0 * (device.height * rise);
    SlabMiddle(a.x, d.x, device.x, t);
    SlabMiddle(a.z, d.z, device.z, t);
    SlabBetween(a.y, d.y, 0.0, box.hi.y, t);
    hide InSlab, Abs;
  }

  lemma Regrouped(h: real, rise: real)
    ensures h * 7.0 * rise == 7.0 * (h * rise)
  {
  }

  lemma SlabMiddle(o: real, d: real, m: real, t: real)
    ensures InSlab(o, d, m - 0.7, m + 0.7, t) <==> Abs(o + t * d - m) <= 0.7
  {
  }

  lemma SlabBetween(o: real, d: real, lo: real, hi: real, t: real)
    ensures InSlab(o, d, lo, hi, t) <==> lo <= o + t * d <= hi
  {
  }

  /** Some pillar is hit before the search distance ends. */
  ghost predicate AnyHit(devices: seq<Device>, rise: real, a: Vec, d: Vec) {
    exists i, t :: 0 <= i < |devices| && 0.0 <= t < REACH && Hits(a, d, PillarBox(devices[i], rise), t)
  }

  /** `best` is hit at `t`; every other pillar is hit later, or at the same moment if it
      comes later in the list. */
  ghost predicate HitFirst(devices: seq<Device>, rise: real, a: Vec, d: Vec, best: int, t: real) {
    && 0 <= best < |devices| && 0.0 <= t < REACH
    && Hits(a, d, PillarBox(devices[best], rise), t)
    && forall i, s | 0 <= i < |devices| && 0.0 <= s < REACH && Hits(a, d, PillarBox(devices[i], rise), s) ::
         t <= s && (i < best ==> t < s)
  }

  method PickPillar(devices: seq<Device>, rise: real, a: Vec, dir: Vec) returns (best: int, bestT: real)
    requires Standing(devices, rise)
    ensures best == -1 ==> !AnyHit(devices, rise, a, Snapped(dir))
    ensures best != -1 ==> HitFirst(devices, rise, a, Snapped(dir), best, bestT)
  {
    best, bestT := -1, REACH;
    var hw := 0.7;
    ghost var d := Snapped(dir);
    for i := 0 to |devices|
      invariant best == -1 || 0 <= best < i
      invariant best == -1 ==> bestT == REACH
      invariant best != -1 ==> 0.0 <= bestT < REACH && Hits(a, d, PillarBox(devices[best], rise), bestT)
      invariant forall j, s | 0 <= j < i && 0.0 <= s < REACH && Hits(a, d, PillarBox(devices[j], rise), s) ::
                  bestT <= s && (j < best ==> bestT < s)
    {
      var p := devices[i];
      var h := p.height * 7.0 * rise;
      var box := Bounds(Vec(p.x - hw, 0.0, p.z - hw), Vec(p.x + hw, h, p.z + hw));
      assert box == PillarBox(p, rise);
      hide Hits, Snapped;
      var t := RayBox(a, dir, box);
      if t >= 0.0 && t < bestT { bestT, best := t, i; }
    }
  }

  function SquaredDistance(d: Device, x: real, z: real): real {
    (d.x - x) * (d.x - x) + (d.z - z) * (d.z - z)
  }

  /** The device nearest to a point within `reach`, the last one of several, or -1 if
      there is none. */
  ghost predicate NearestWithin(devices: seq<Device>, x: real, z: real, reach: real, best: int) {
    if best == -1 then forall i | 0 <= i < |devices| :: SquaredDistance(devices[i], x, z) > reach * reach
    else
      && 0 <= best < |devices| && SquaredDistance(devices[best], x, z) <= reach * reach
      && (forall i | 0 <= i < |devices| :: SquaredDistance(devices[best], x, z) <= SquaredDistance(devices[i], x, z))
      && (forall i | best < i < |devices| :: SquaredDistance(devices[best], x, z) < SquaredDistance(devices[i], x, z))
  }

  method Nearest(devices: seq<Device>, x: real, z: real, maxDist: real) returns (best: int)
    ensures NearestWithin(devices, x, z, maxDist, best)
  {
    best := -1;
    var bestD2 := maxDist * maxDist;
    for i := 0 to |devices|
      invariant best == -1 || 0 <= best < i
      invariant best == -1 ==> bestD2 == maxDist * maxDist
                               && forall j | 0 <= j < i :: SquaredDistance(devices[j], x, z) > bestD2
      invariant best != -1 ==> bestD2 == SquaredDistance(devices[best], x, z) && bestD2 <= maxDist * maxDist
      invariant forall j | 0 <= j < i :: bestD2 <= SquaredDistance(devices[j], x, z)
      invariant forall j | best < j < i :: bestD2 < SquaredDistance(devices[j], x, z)
    {
      var dx, dz := devices[i].x - x, devices[i].z - z;
      var d2 := dx * dx + dz * dz;
      assert d2 == SquaredDistance(devices[i], x, z);
      hide SquaredDistance;
      if d2 <= bestD2 { bestD2, best := d2, i; }
    }
  }

  /** The ray meets the ground ahead of the viewer. */
  ghost predicate MeetsGround(a: Vec, dir: Vec, t: real) {
    Abs(dir.y) > 0.0001 && t > 0.0 && Reached(a.y, dir.y, t) == 0.0
  }

  lemma GroundPoint(a: Vec, dir: Vec, t: real)
    requires dir.y != 0.0
    ensures Reached(a.y, dir.y, t) == 0.0 <==> t == -a.y / dir.y
  {
    var tg := -a.y / dir.y;
    assert tg * dir.y == -a.y;
    assert Reached(a.y, dir.y, t) == 0.0 <==> t * dir.y == tg * dir.y;
    if t * dir.y == tg * dir.y { Cancels(t, tg, dir.y); }
  }

  lemma Cancels(a: real, b: real, d: real)
    requires d != 0.0 && a * d == b * d
    ensures a == b
  {
    assert (a * d) / d == a && (b * d) / d == b;
  }

  /** The device under the cursor: the pillar hit first; if no pillar is hit, the device
      nearest to where the ray meets the ground; otherwise none. */
  method PickAt(devices: seq<Device>, rise: real, a: Vec, dir: Vec) returns (best: int)
    requires Standing(devices, rise)
    ensures AnyHit(devices, rise, a, Snapped(dir)) ==> exists t :: HitFirst(devices, rise, a, Snapped(dir), best, t)
    ensures !AnyHit(devices, rise, a, Snapped(dir)) ==>
              && (forall t | MeetsGround(a, dir, t) ::
                    NearestWithin(devices, Reached(a.x, dir.x, t), Reached(a.z, dir.z, t), 1.4, best))
              && ((forall t :: !MeetsGround(a, dir, t)) ==> best == -1)
  {
    hide Hits, Snapped, NearestWithin, SquaredDistance;
    var t: real;
    best, t := PickPillar(devices, rise, a, dir);
    assert best != -1 ==> AnyHit(devices, rise, a, Snapped(dir));
    if best < 0 && Abs(dir.y) > 0.0001 {
      var tg := -a.y / dir.y;
      forall s ensures Reached(a.y, dir.y, s) == 0.0 <==> s == tg { GroundPoint(a, dir, s); }
      if tg > 0.0 {
        assert MeetsGround(a, dir, tg);
        assert a.x + dir.x * tg == Reached(a.x, dir.x, tg) && a.z + dir.z * tg == Reached(a.z, dir.z, tg);
        best := Nearest(devices, a.x + dir.x * tg, a.z + dir.z * tg, 1.4);
      }
      forall s | MeetsGround(a, dir, s) ensures s == tg { GroundPoint(a, dir, s); }
    }
  }
}
