/** What the layout promises about every scene it makes. */
module PlantLayoutLaws {
  import opened KeyOrder
  import opened PlantGeometry
  import opened PlantLayout

  // ---- The shape of a grouped input ----

  lemma FloorPopulated(input: seq<Device>, p: string, f: string)
    requires f in Floors(input, p)
    ensures Of(input, p, f) != []
  {
    OfNonEmpty(input, p, f);
  }

  lemma {:induction false} SizesPopulated(input: seq<Device>, p: string, fs: seq<string>)
    requires forall f | f in fs :: f in Floors(input, p)
    ensures Populated(SizesOf(input, p, fs))
  {
    if fs != [] {
      var last := |fs| - 1;
      assert fs[last] in fs;
      SizesPopulated(input, p, fs[..last]);
      FloorPopulated(input, p, fs[last]);
    }
  }

  lemma FloorsExist(input: seq<Device>, p: string)
    requires p in Plants(input)
    ensures FloorNames(input, p) != []
  {
    var i :| 0 <= i < |input| && input[i].plant == p;
    assert input[i].floor in Floors(input, p);
    assert input[i].floor in FloorNames(input, p);
  }

  lemma {:induction false} ShapePopulated(input: seq<Device>, ps: seq<string>)
    requires forall p | p in ps :: p in Plants(input)
    ensures AllPopulated(ShapeOf(input, ps))
  {
    if ps != [] {
      var last := |ps| - 1;
      assert ps[last] in ps;
      ShapePopulated(input, ps[..last]);
      SizesPopulated(input, ps[last], FloorNames(input, ps[last]));
      FloorsExist(input, ps[last]);
    }
  }

  lemma SceneShapePopulated(input: seq<Device>)
    requires input != []
    ensures AllPopulated(SceneShape(input)) && SceneShape(input) != []
  {
    assert input[0].plant in Plants(input);
    assert input[0].plant in PlantNames(input);
    ShapePopulated(input, PlantNames(input));
  }

  // ---- Each device stands in the zone of its own plant and floor ----

  ghost predicate AtHome(d: Device, c: Cell, infos: seq<Info>) {
    c.zone < |infos| && infos[c.zone].plant == d.plant && infos[c.zone].floor == d.floor
  }

  lemma OnFloorMembers(input: seq<Device>, p: string, f: string, i: nat)
    requires i < |OnFloor(input, p, f)|
    ensures OnFloor(input, p, f)[i].plant == p && OnFloor(input, p, f)[i].floor == f
  {
    var ds := OnFloor(input, p, f);
    SortKeeps(Of(input, p, f));
    OfCounts(input, p, f, ds[i]);
    assert ds[i] in ds && ds[i] in multiset(ds);
  }

  lemma {:induction false} FloorInfoAt(input: seq<Device>, p: string, fs: seq<string>, k: nat)
    requires k < |fs|
    ensures FloorInfos(input, p, fs)[k].plant == p && FloorInfos(input, p, fs)[k].floor == fs[k]
  {
    if k < |fs| - 1 { FloorInfoAt(input, p, fs[..|fs| - 1], k); }
  }

  lemma FloorCellZone(st: Style, px: real, width: real, z: real, n: nat, zone: nat, i: nat)
    requires st.maxColumns >= 1 && i < n
    ensures FloorCells(st, px, width, z, n, zone)[i].zone == zone
  {
  }

  ghost predicate OnNamedFloor(d: Device, c: Cell, p: string, fs: seq<string>, zone0: nat) {
    zone0 <= c.zone < zone0 + |fs| && d.plant == p && d.floor == fs[c.zone - zone0]
  }

  lemma OnNamedFloorLonger(d: Device, c: Cell, p: string, fs: seq<string>, zone0: nat)
    requires fs != [] && OnNamedFloor(d, c, p, fs[..|fs| - 1], zone0)
    ensures OnNamedFloor(d, c, p, fs, zone0)
  {
  }

  lemma OnLastFloor(st: Style, input: seq<Device>, p: string, fs: seq<string>, px: real, width: real, z: real,
                    zone0: nat, i: nat)
    requires st.maxColumns >= 1 && fs != [] && i < |OnFloor(input, p, fs[|fs| - 1])|
    ensures var last := |fs| - 1; var here := OnFloor(input, p, fs[last]);
            OnNamedFloor(here[i], FloorCells(st, px, width, z, |here|, zone0 + last)[i], p, fs, zone0)
  {
    hide OnFloor, CellAt;
    var last := |fs| - 1;
    OnFloorMembers(input, p, fs[last], i);
    FloorCellZone(st, px, width, z, |OnFloor(input, p, fs[last])|, zone0 + last, i);
  }

  lemma NextFloor(st: Style, input: seq<Device>, p: string, fs: seq<string>, px: real, width: real, zone0: nat)
    requires st.maxColumns >= 1 && fs != []
    ensures var last := |fs| - 1;
            var here, ns := OnFloor(input, p, fs[last]), SizesOf(input, p, fs[..last]);
            && FloorsFlat(input, p, fs) == FloorsFlat(input, p, fs[..last]) + here
            && PlantCells(st, px, width, SizesOf(input, p, fs), zone0)
               == PlantCells(st, px, width, ns, zone0)
                  + FloorCells(st, px, width, ZAfter(st, ns), |here|, zone0 + last)
            && |PlantCells(st, px, width, ns, zone0)| == |FloorsFlat(input, p, fs[..last])|
  {
    hide *;
    var last := |fs| - 1;
    assert fs[..last + 1] == fs;
    NamesNext(input, p, fs, last);
    OnFloorIsSorted(input, p, fs[last]);
    SortKeeps(Of(input, p, fs[last]));
    OneCellPerDevice(st, input, p, fs[..last], px, width, zone0);
    ZonesNext(st, px, width, SizesOf(input, p, fs[..last]), |OnFloor(input, p, fs[last])|, zone0);
  }

  lemma {:induction false} FloorsAtHome(st: Style, input: seq<Device>, p: string, fs: seq<string>, px: real,
                                        width: real, zone0: nat, i: nat)
    requires st.maxColumns >= 1 && i < |FloorsFlat(input, p, fs)|
    ensures var cs := PlantCells(st, px, width, SizesOf(input, p, fs), zone0);
            |cs| == |FloorsFlat(input, p, fs)| && OnNamedFloor(FloorsFlat(input, p, fs)[i], cs[i], p, fs, zone0)
  {
    assert fs != [];
    hide *;
    var last := |fs| - 1;
    var before, ns := FloorsFlat(input, p, fs[..last]), SizesOf(input, p, fs[..last]);
    NextFloor(st, input, p, fs, px, width, zone0);
    if i < |before| {
      FloorsAtHome(st, input, p, fs[..last], px, width, zone0, i);
      OnNamedFloorLonger(before[i], PlantCells(st, px, width, ns, zone0)[i], p, fs, zone0);
    } else {
      OnLastFloor(st, input, p, fs, px, width, ZAfter(st, ns), zone0, i - |before|);
    }
  }

  lemma AtHomeByName(d: Device, c: Cell, input: seq<Device>, p: string, fs: seq<string>, infos: seq<Info>)
    requires OnNamedFloor(d, c, p, fs, |infos|)
    ensures AtHome(d, c, infos + FloorInfos(input, p, fs))
  {
    FloorInfoAt(input, p, fs, c.zone - |infos|);
  }

  lemma AtHomeJoins(f0: seq<Device>, c0: seq<Cell>, i0: seq<Info>, f1: seq<Device>, c1: seq<Cell>, i1: seq<Info>, i: nat)
    requires |f0| == |c0| && |f1| == |c1| && i < |f0| + |f1|
    requires i < |f0| ==> AtHome(f0[i], c0[i], i0)
    requires i >= |f0| ==> AtHome(f1[i - |f0|], c1[i - |f0|], i0 + i1)
    ensures AtHome((f0 + f1)[i], (c0 + c1)[i], i0 + i1)
  {
  }

  lemma NextPlant(st: Style, input: seq<Device>, ps: seq<string>)
    requires st.maxColumns >= 1 && ps != []
    ensures var rest, p := ps[..|ps| - 1], ps[|ps| - 1]; var fs := FloorNames(input, p);
            var shape, ns := ShapeOf(input, rest), SizesOf(input, p, fs);
            && PlantsFlat(input, ps) == PlantsFlat(input, rest) + FloorsFlat(input, p, fs)
            && PlantInfos(input, ps) == PlantInfos(input, rest) + FloorInfos(input, p, fs)
            && Cells(st, ShapeOf(input, ps))
               == Cells(st, shape)
                  + PlantCells(st, XAfter(st, shape), PlantWidth(st, ns), ns, |PlantInfos(input, rest)|)
            && |Cells(st, shape)| == |PlantsFlat(input, rest)|
  {
    hide *;
    var last := |ps| - 1;
    var shape, ns := ShapeOf(input, ps[..last]), SizesOf(input, ps[last], FloorNames(input, ps[last]));
    assert ps[..last + 1] == ps;
    PlantsNext(input, ps, last);
    OneCellPerSceneDevice(st, input, ps[..last]);
    SceneNext(st, shape, ns);
    OneInfoPerZone(st, input, ps[..last]);
  }

  lemma FlatOfNone(input: seq<Device>, ps: seq<string>)
    ensures ps == [] ==> PlantsFlat(input, ps) == []
  {
  }

  lemma {:induction false} PlantsAtHome(st: Style, input: seq<Device>, ps: seq<string>, i: nat)
    requires st.maxColumns >= 1 && i < |PlantsFlat(input, ps)|
    ensures |Cells(st, ShapeOf(input, ps))| == |PlantsFlat(input, ps)|
    ensures AtHome(PlantsFlat(input, ps)[i], Cells(st, ShapeOf(input, ps))[i], PlantInfos(input, ps))
  {
    hide *;
    assert ps != [] by { FlatOfNone(input, ps); }
    var rest, p := ps[..|ps| - 1], ps[|ps| - 1];
    var fs, shape, infos := FloorNames(input, p), ShapeOf(input, rest), PlantInfos(input, rest);
    var ns, before := SizesOf(input, p, fs), PlantsFlat(input, rest);
    var px, width := XAfter(st, shape), PlantWidth(st, ns);
    NextPlant(st, input, ps);
    OneCellPerDevice(st, input, p, fs, px, width, |infos|);
    var here, c0, c1 := FloorsFlat(input, p, fs), Cells(st, shape), PlantCells(st, px, width, ns, |infos|);
    if i < |before| {
      PlantsAtHome(st, input, rest, i);
    } else {
      FloorsAtHome(st, input, p, fs, px, width, |infos|, i - |before|);
      AtHomeByName(here[i - |before|], c1[i - |before|], input, p, fs, infos);
    }
    AtHomeJoins(before, c0, infos, here, c1, FloorInfos(input, p, fs), i);
  }

  // ---- Inside, apart, centred ----

  predicate InZone(st: Style, d: Placed, z: Zone) {
    && z.x - z.width / 2.0 + st.spacing / 2.0 <= d.x <= z.x + z.width / 2.0 - st.spacing / 2.0
    && z.z - z.depth / 2.0 + st.spacing / 2.0 <= d.z <= z.z + z.depth / 2.0 - st.spacing / 2.0
    && d.device.plant == z.plant && d.device.floor == z.floor
  }

  predicate ZonesSeparate(st: Style, a: Zone, b: Zone) {
    || a.x + a.width / 2.0 + st.plantGap <= b.x - b.width / 2.0
    || a.z + a.depth / 2.0 + st.zoneGap <= b.z - b.depth / 2.0
  }

  predicate StepApart(st: Style, a: Placed, b: Placed) {
    Abs(a.x - b.x) >= st.spacing || Abs(a.z - b.z) >= st.spacing
  }

  ghost predicate Tidy(st: Style, scene: Scene) {
    && (forall i | 0 <= i < |scene.devices| ::
          scene.devices[i].zone < |scene.zones| && InZone(st, scene.devices[i], scene.zones[scene.devices[i].zone]))
    && (forall i, j | 0 <= i < j < |scene.zones| :: ZonesSeparate(st, scene.zones[i], scene.zones[j]))
    && (forall i, j | 0 <= i < j < |scene.devices| :: StepApart(st, scene.devices[i], scene.devices[j]))
  }

  /** The scene's zones fill the box of its width and depth around the origin, touching
      all four sides. */
  ghost predicate Centred(scene: Scene) {
    && (forall i | 0 <= i < |scene.zones| ::
          var z := scene.zones[i];
          && -scene.width / 2.0 <= z.x - z.width / 2.0 && z.x + z.width / 2.0 <= scene.width / 2.0
          && -scene.depth / 2.0 <= z.z - z.depth / 2.0 && z.z + z.depth / 2.0 <= scene.depth / 2.0)
    && (exists i :: 0 <= i < |scene.zones| && scene.zones[i].x - scene.zones[i].width / 2.0 == -scene.width / 2.0)
    && (exists i :: 0 <= i < |scene.zones| && scene.zones[i].x + scene.zones[i].width / 2.0 == scene.width / 2.0)
    && (exists i :: 0 <= i < |scene.zones| && scene.zones[i].z - scene.zones[i].depth / 2.0 == -scene.depth / 2.0)
    && (exists i :: 0 <= i < |scene.zones| && scene.zones[i].z + scene.zones[i].depth / 2.0 == scene.depth / 2.0)
  }

  lemma {:induction false} BoundsHold(rs: seq<Rect>, i: nat)
    requires i < |rs|
    ensures var b := Bounds(rs);
            b.minX <= Left(rs[i]) && Right(rs[i]) <= b.maxX && b.minZ <= Top(rs[i]) && Bottom(rs[i]) <= b.maxZ
  {
    if i < |rs| - 1 { BoundsHold(rs[..|rs| - 1], i); }
  }

  lemma {:induction false} BoundsReached(rs: seq<Rect>)
    requires forall i | 0 <= i < |rs| ::
               Left(rs[i]) >= 0.0 && Top(rs[i]) >= 0.0 && Right(rs[i]) >= 0.0 && Bottom(rs[i]) >= 0.0
    requires rs != [] && Left(rs[0]) == 0.0 && Top(rs[0]) == 0.0
    ensures var b := Bounds(rs);
            && (exists i :: 0 <= i < |rs| && Left(rs[i]) == b.minX)
            && (exists i :: 0 <= i < |rs| && Right(rs[i]) == b.maxX)
            && (exists i :: 0 <= i < |rs| && Top(rs[i]) == b.minZ)
            && (exists i :: 0 <= i < |rs| && Bottom(rs[i]) == b.maxZ)
  {
    var last := |rs| - 1;
    if last > 0 {
      var rest := rs[..last];
      BoundsReached(rest);
      var b, r := Bounds(rest), rs[last];
      var i0 :| 0 <= i0 < |rest| && Left(rest[i0]) == b.minX;
      var i1 :| 0 <= i1 < |rest| && Right(rest[i1]) == b.maxX;
      var i2 :| 0 <= i2 < |rest| && Top(rest[i2]) == b.minZ;
      var i3 :| 0 <= i3 < |rest| && Bottom(rest[i3]) == b.maxZ;
      assert Left(rs[if Left(r) < b.minX then last else i0]) == Bounds(rs).minX;
      assert Right(rs[if b.maxX < Right(r) then last else i1]) == Bounds(rs).maxX;
      assert Top(rs[if Top(r) < b.minZ then last else i2]) == Bounds(rs).minZ;
      assert Bottom(rs[if b.maxZ < Bottom(r) then last else i3]) == Bounds(rs).maxZ;
    } else {
      assert rs[..0] == [];
      assert Left(rs[0]) == Bounds(rs).minX && Right(rs[0]) == Bounds(rs).maxX;
      assert Top(rs[0]) == Bounds(rs).minZ && Bottom(rs[0]) == Bounds(rs).maxZ;
    }
  }

  lemma PillarParts(st: Style, rs: Ranges, input: seq<Device>, i: nat)
    requires st.maxColumns >= 1 && input != [] && i < |SceneOf(st, rs, input).devices|
    ensures var d, b := SceneOf(st, rs, input).devices[i], Bounds(Rects(st, SceneShape(input)));
            var cs := Cells(st, SceneShape(input));
            && |cs| == |Flat(input)| == |SceneOf(st, rs, input).devices|
            && d.device == Flat(input)[i] && d.zone == cs[i].zone
            && d.x == cs[i].x - MiddleX(b) && d.z == cs[i].z - MiddleZ(b)
            && d.height == Pillar(RangesAfter(rs, Flat(input)[..i + 1]), Flat(input)[i], cs[i]).height
  {
    var cs := Cells(st, SceneShape(input));
    OneCellPerSceneDevice(st, input, PlantNames(input));
    PillarCount(rs, Flat(input), cs);
    PillarAt(rs, Flat(input), cs, i);
  }

  lemma PillarCount(rs: Ranges, ds: seq<Device>, cs: seq<Cell>)
    requires |ds| == |cs|
    ensures |Pillars(rs, ds, cs)| == |ds|
  {
    if ds != [] { PillarAt(rs, ds, cs, 0); }
  }

  lemma ZoneParts(st: Style, rs: Ranges, input: seq<Device>, k: nat)
    requires st.maxColumns >= 1 && input != [] && k < |SceneOf(st, rs, input).zones|
    ensures var z, r, b := SceneOf(st, rs, input).zones[k], Rects(st, SceneShape(input)),
                           Bounds(Rects(st, SceneShape(input)));
            && |r| == |Infos(input)| == |SceneOf(st, rs, input).zones|
            && z == ZoneAt(Infos(input)[k], ShiftRect(r[k], b))
  {
    OneInfoPerZone(st, input, PlantNames(input));
  }

  /** Every device stands inside the zone of its plant and floor; zones never overlap; two
      devices are at least one grid step apart along x or along z. */
  lemma SceneIsTidy(st: Style, rs: Ranges, input: seq<Device>)
    requires Sane(st) && input != []
    ensures Tidy(st, SceneOf(st, rs, input))
  {
    hide SceneOf, Flat, Infos, Rects, Cells, SceneShape, Bounds, RangesAfter, Pillar, PlantsFlat, PlantInfos;
    var scene, shape := SceneOf(st, rs, input), SceneShape(input);
    var cs, r, b := Cells(st, shape), Rects(st, shape), Bounds(Rects(st, shape));
    SceneShapePopulated(input);
    DevicesPlaced(st, shape);
    ZonesDisjoint(st, shape);
    SceneCounts(st, rs, input);
    forall i | 0 <= i < |scene.devices|
      ensures scene.devices[i].zone < |scene.zones| && InZone(st, scene.devices[i], scene.zones[scene.devices[i].zone])
    {
      PillarParts(st, rs, input, i);
      DeviceAtHome(st, input, i);
      ZoneParts(st, rs, input, cs[i].zone);
    }
    forall i, j | 0 <= i < j < |scene.zones| ensures ZonesSeparate(st, scene.zones[i], scene.zones[j]) {
      ZoneParts(st, rs, input, i);
      ZoneParts(st, rs, input, j);
      assert Beyond(st, r[i], r[j]);
    }
    forall i, j | 0 <= i < j < |scene.devices| ensures StepApart(st, scene.devices[i], scene.devices[j]) {
      PillarParts(st, rs, input, i);
      PillarParts(st, rs, input, j);
      assert Apart(st, cs[i], cs[j]);
    }
  }

  lemma DeviceAtHome(st: Style, input: seq<Device>, i: nat)
    requires st.maxColumns >= 1 && i < |Flat(input)|
    ensures |Cells(st, SceneShape(input))| == |Flat(input)|
    ensures AtHome(Flat(input)[i], Cells(st, SceneShape(input))[i], Infos(input))
  {
    PlantsAtHome(st, input, PlantNames(input), i);
  }

  lemma SceneCounts(st: Style, rs: Ranges, input: seq<Device>)
    requires st.maxColumns >= 1 && input != []
    ensures |SceneOf(st, rs, input).zones| == |Infos(input)| == |Rects(st, SceneShape(input))|
    ensures |SceneOf(st, rs, input).devices| == |Flat(input)| == |Cells(st, SceneShape(input))|
  {
    OneInfoPerZone(st, input, PlantNames(input));
    OneCellPerSceneDevice(st, input, PlantNames(input));
    PillarCount(rs, Flat(input), Cells(st, SceneShape(input)));
  }

  /** The bounding box of the scene is centred on the origin. */
  lemma SceneIsCentred(st: Style, rs: Ranges, input: seq<Device>)
    requires Sane(st) && input != []
    ensures Centred(SceneOf(st, rs, input))
  {
    var scene, shape := SceneOf(st, rs, input), SceneShape(input);
    var r := Rects(st, shape);
    var b := Bounds(r);
    SceneShapePopulated(input);
    ZonesDisjoint(st, shape);
    SceneCounts(st, rs, input);
    BoundsReached(r);
    CentredBox(scene, r, b, Infos(input));
  }

  lemma CentredBox(scene: Scene, r: seq<Rect>, b: Box, infos: seq<Info>)
    requires |infos| == |r| && b == Bounds(r) && scene.zones == Zip(infos, ShiftRects(r, b))
    requires scene.width == b.maxX - b.minX && scene.depth == b.maxZ - b.minZ
    requires exists i :: 0 <= i < |r| && Left(r[i]) == b.minX
    requires exists i :: 0 <= i < |r| && Right(r[i]) == b.maxX
    requires exists i :: 0 <= i < |r| && Top(r[i]) == b.minZ
    requires exists i :: 0 <= i < |r| && Bottom(r[i]) == b.maxZ
    ensures Centred(scene)
  {
    hide Bounds;
    var w, d := scene.width / 2.0, scene.depth / 2.0;
    forall i | 0 <= i < |r|
      ensures var z := scene.zones[i];
              && -scene.width / 2.0 <= z.x - z.width / 2.0 && z.x + z.width / 2.0 <= scene.width / 2.0
              && -scene.depth / 2.0 <= z.z - z.depth / 2.0 && z.z + z.depth / 2.0 <= scene.depth / 2.0
    {
      BoundsHold(r, i);
    }
    var i0 :| 0 <= i0 < |r| && Left(r[i0]) == b.minX;
    var i1 :| 0 <= i1 < |r| && Right(r[i1]) == b.maxX;
    var i2 :| 0 <= i2 < |r| && Top(r[i2]) == b.minZ;
    var i3 :| 0 <= i3 < |r| && Bottom(r[i3]) == b.maxZ;
    assert scene.zones[i0].x - scene.zones[i0].width / 2.0 == -scene.width / 2.0;
    assert scene.zones[i1].x + scene.zones[i1].width / 2.0 == scene.width / 2.0;
    assert scene.zones[i2].z - scene.zones[i2].depth / 2.0 == -scene.depth / 2.0;
    assert scene.zones[i3].z + scene.zones[i3].depth / 2.0 == scene.depth / 2.0;
  }

  // ---- Nothing is lost ----

  lemma {:induction false} FloorsFlatCounts(input: seq<Device>, p: string, fs: seq<string>, d: Device)
    requires Ascending(Less, fs)
    ensures multiset(FloorsFlat(input, p, fs))[d]
         == if d.plant == p && d.floor in fs then multiset(input)[d] else 0
  {
    if fs != [] {
      var last := |fs| - 1;
      FloorsFlatCounts(input, p, fs[..last], d);
      SortKeeps(Of(input, p, fs[last]));
      OfCounts(input, p, fs[last], d);
      LastIsNew(fs);
      assert d.floor in fs <==> d.floor in fs[..last] || d.floor == fs[last];
    }
  }

  lemma LastIsNew(s: seq<string>)
    requires s != [] && Ascending(Less, s)
    ensures s[|s| - 1] !in s[..|s| - 1] && Ascending(Less, s[..|s| - 1])
  {
    forall i | 0 <= i < |s| - 1 ensures s[i] != s[|s| - 1] { LessTotal(s[i], s[|s| - 1]); }
  }

  lemma {:induction false} PlantsFlatCounts(input: seq<Device>, ps: seq<string>, d: Device)
    requires Ascending(Less, ps)
    ensures multiset(PlantsFlat(input, ps))[d] == if d.plant in ps then multiset(input)[d] else 0
  {
    if ps != [] {
      var last := |ps| - 1;
      PlantsFlatCounts(input, ps[..last], d);
      LastIsNew(ps);
      FloorsFlatCounts(input, ps[last], FloorNames(input, ps[last]), d);
      if d.plant == ps[last] && d in input {
        var i :| 0 <= i < |input| && input[i] == d;
        assert d.floor in Floors(input, d.plant);
      }
      assert d.plant in ps <==> d.plant in ps[..last] || d.plant == ps[last];
    }
  }

  /** The scene holds exactly the devices of the input, each as often as it was given. */
  lemma FlatKeepsEveryDevice(input: seq<Device>)
    ensures multiset(Flat(input)) == multiset(input) && |Flat(input)| == |input|
  {
    forall d ensures multiset(Flat(input))[d] == multiset(input)[d] {
      PlantsFlatCounts(input, PlantNames(input), d);
      if d in input {
        var i :| 0 <= i < |input| && input[i] == d;
        assert d.plant in Plants(input);
      }
    }
    assert multiset(Flat(input)) == multiset(input);
    assert |multiset(Flat(input))| == |multiset(input)|;
  }

  lemma {:induction false} CriticalsConcat(a: seq<Device>, b: seq<Device>)
    ensures Criticals(a + b) == Criticals(a) + Criticals(b)
  {
    if b == [] {
      assert a + b == a;
    } else {
      var last := |b| - 1;
      CriticalsConcat(a, b[..last]);
      assert (a + b)[..|a| + last] == a + b[..last];
    }
  }

  lemma WithoutOne(a: seq<Device>, b: seq<Device>, ma: multiset<Device>, mb: multiset<Device>, d: Device)
    requires ma == multiset(a) + multiset{d} && mb == multiset(b) + multiset{d} && ma == mb
    ensures multiset(a) == multiset(b)
  {
    assert multiset(a) == ma - multiset{d} && multiset(b) == mb - multiset{d};
  }

  function One(d: Device): nat { if d.critical then 1 else 0 }

  lemma Taken(s: seq<Device>, k: nat)
    requires k < |s|
    ensures s == (s[..k] + [s[k]]) + s[k + 1..]
  {
    hide *;
  }

  lemma CriticalsWithout(s: seq<Device>, k: nat)
    requires k < |s|
    ensures Criticals(s) == Criticals(s[..k] + s[k + 1..]) + One(s[k])
    ensures multiset(s) == multiset(s[..k] + s[k + 1..]) + multiset{s[k]}
  {
    var d, before, after := s[k], s[..k], s[k + 1..];
    Taken(s, k);
    CriticalsConcat(before + [d], after);
    CriticalsConcat(before, after);
    assert (before + [d])[..k] == before;
  }

  /** The number of critical devices does not depend on their order. */
  lemma {:induction false} CriticalsOfPermutation(a: seq<Device>, b: seq<Device>)
    requires multiset(a) == multiset(b)
    ensures Criticals(a) == Criticals(b)
  {
    if a == [] {
      assert |multiset(b)| == 0;
    } else {
      hide *;
      assert a[0] in multiset(b);
      var k :| 0 <= k < |b| && b[k] == a[0];
      var ra, rb := a[..0] + a[1..], b[..k] + b[k + 1..];
      CriticalsWithout(a, 0);
      CriticalsWithout(b, k);
      WithoutOne(ra, rb, multiset(a), multiset(b), a[0]);
      CriticalsOfPermutation(ra, rb);
    }
  }

  function CountSum(zs: seq<Info>): nat {
    if zs == [] then 0 else CountSum(zs[..|zs| - 1]) + zs[|zs| - 1].count
  }

  function CriticalSum(zs: seq<Info>): nat {
    if zs == [] then 0 else CriticalSum(zs[..|zs| - 1]) + zs[|zs| - 1].critical
  }

  lemma {:induction false} SumsConcat(a: seq<Info>, b: seq<Info>)
    ensures CountSum(a + b) == CountSum(a) + CountSum(b) && CriticalSum(a + b) == CriticalSum(a) + CriticalSum(b)
  {
    if b == [] {
      assert a + b == a;
    } else {
      var last := |b| - 1;
      SumsConcat(a, b[..last]);
      assert (a + b)[..|a| + last] == a + b[..last];
    }
  }

  lemma {:induction false} FloorSums(input: seq<Device>, p: string, fs: seq<string>)
    ensures CountSum(FloorInfos(input, p, fs)) == |FloorsFlat(input, p, fs)|
    ensures CriticalSum(FloorInfos(input, p, fs)) == Criticals(FloorsFlat(input, p, fs))
  {
    if fs != [] {
      var last := |fs| - 1;
      FloorSums(input, p, fs[..last]);
      SortKeeps(Of(input, p, fs[last]));
      CriticalsConcat(FloorsFlat(input, p, fs[..last]), OnFloor(input, p, fs[last]));
      assert FloorInfos(input, p, fs)[..last] == FloorInfos(input, p, fs[..last]);
    }
  }

  lemma {:induction false} PlantSums(input: seq<Device>, ps: seq<string>)
    ensures CountSum(PlantInfos(input, ps)) == |PlantsFlat(input, ps)|
    ensures CriticalSum(PlantInfos(input, ps)) == Criticals(PlantsFlat(input, ps))
  {
    if ps != [] {
      var last := |ps| - 1;
      var fs := FloorNames(input, ps[last]);
      PlantSums(input, ps[..last]);
      FloorSums(input, ps[last], fs);
      SumsConcat(PlantInfos(input, ps[..last]), FloorInfos(input, ps[last], fs));
      CriticalsConcat(PlantsFlat(input, ps[..last]), FloorsFlat(input, ps[last], fs));
    }
  }

  /** The zone counts add up to the number of devices, and their critical counts to the
      number of critical devices. */
  lemma ZoneCountsAddUp(input: seq<Device>)
    ensures CountSum(Infos(input)) == |input| && CriticalSum(Infos(input)) == Criticals(input)
  {
    PlantSums(input, PlantNames(input));
    FlatKeepsEveryDevice(input);
    CriticalsOfPermutation(Flat(input), input);
  }

  // ---- Positions depend on the set of devices only ----

  predicate SameSpot(a: Device, b: Device) {
    a.id == b.id && a.sensor == b.sensor && a.plant == b.plant && a.floor == b.floor
  }

  /** Every device of `a` has one of `b` at the same spot. */
  ghost predicate SpotsWithin(a: seq<Device>, b: seq<Device>) {
    forall i | 0 <= i < |a| :: exists j :: 0 <= j < |b| && SameSpot(a[i], b[j])
  }

  /** The same devices on the same plants and floors, in any order and with any readings. */
  ghost predicate SameDevices(a: seq<Device>, b: seq<Device>) {
    DistinctKeys(a) && DistinctKeys(b) && SpotsWithin(a, b) && SpotsWithin(b, a)
  }

  lemma PlantWithin(a: seq<Device>, b: seq<Device>, q: string)
    requires SpotsWithin(a, b) && q in Plants(a)
    ensures q in Plants(b)
  {
    var i :| 0 <= i < |a| && a[i].plant == q;
    var j :| 0 <= j < |b| && SameSpot(a[i], b[j]);
    assert b[j].plant in Plants(b);
  }

  lemma FloorWithin(a: seq<Device>, b: seq<Device>, p: string, f: string)
    requires SpotsWithin(a, b) && f in Floors(a, p)
    ensures f in Floors(b, p)
  {
    var i :| 0 <= i < |a| && a[i].plant == p && a[i].floor == f;
    var j :| 0 <= j < |b| && SameSpot(a[i], b[j]);
    assert b[j].floor in Floors(b, p);
  }

  lemma GroupsWithin(a: seq<Device>, b: seq<Device>, p: string)
    requires SpotsWithin(a, b)
    ensures Plants(a) <= Plants(b) && Floors(a, p) <= Floors(b, p)
  {
    hide *;
    forall q | q in Plants(a) ensures q in Plants(b) { PlantWithin(a, b, q); }
    forall f | f in Floors(a, p) ensures f in Floors(b, p) { FloorWithin(a, b, p, f); }
  }

  lemma SameGroups(a: seq<Device>, b: seq<Device>, p: string)
    requires SameDevices(a, b)
    ensures Plants(a) == Plants(b) && Floors(a, p) == Floors(b, p)
  {
    GroupsWithin(a, b, p);
    GroupsWithin(b, a, p);
  }

  predicate IsAt(d: Device, p: string, f: string, k: Key) { d.plant == p && d.floor == f && KeyOf(d) == k }

  ghost predicate Listed(input: seq<Device>, p: string, f: string, k: Key) {
    exists i :: 0 <= i < |input| && IsAt(input[i], p, f, k)
  }

  lemma ListedNext(before: seq<Device>, d: Device, p: string, f: string, k: Key)
    ensures Listed(before + [d], p, f, k) <==> Listed(before, p, f, k) || IsAt(d, p, f, k)
  {
    var after := before + [d];
    if Listed(before, p, f, k) { var i :| 0 <= i < |before| && IsAt(before[i], p, f, k); assert IsAt(after[i], p, f, k); }
    if IsAt(d, p, f, k) { assert IsAt(after[|before|], p, f, k); }
  }

  lemma {:induction false} OfMembers(input: seq<Device>, p: string, f: string, k: Key)
    ensures k in Keys(Of(input, p, f)) <==> Listed(input, p, f, k)
  {
    if input != [] {
      var last := |input| - 1;
      var before := input[..last];
      OfMembers(before, p, f, k);
      assert input == before + [input[last]];
      ListedNext(before, input[last], p, f, k);
      var one := if input[last].plant == p && input[last].floor == f then [input[last]] else [];
      assert Keys(Of(input, p, f)) == Keys(Of(before, p, f)) + Keys(one);
      assert one != [] ==> Keys(one) == [KeyOf(input[last])];
    }
  }

  lemma {:induction false} OfDistinct(input: seq<Device>, p: string, f: string)
    requires DistinctKeys(input)
    ensures DistinctKeys(Of(input, p, f))
  {
    if input != [] {
      var last := |input| - 1;
      var before := input[..last];
      OfDistinct(before, p, f);
      OfMembers(before, p, f, KeyOf(input[last]));
      forall i | 0 <= i < |before| ensures !IsAt(before[i], p, f, KeyOf(input[last])) { assert before[i] == input[i]; }
      assert KeyOf(input[last]) !in Keys(Of(before, p, f));
      var ds := Of(before, p, f);
      forall i | 0 <= i < |ds| ensures KeyOf(ds[i]) != KeyOf(input[last]) { assert Keys(ds)[i] == KeyOf(ds[i]); }
    }
  }

  lemma FloorKeys(input: seq<Device>, p: string, f: string)
    requires DistinctKeys(input)
    ensures Ascending(KeyLess, Keys(OnFloor(input, p, f)))
    ensures |OnFloor(input, p, f)| == |Of(input, p, f)|
    ensures forall k :: k in Keys(OnFloor(input, p, f)) <==> Listed(input, p, f, k)
  {
    hide *;
    OnFloorIsSorted(input, p, f);
    OfDistinct(input, p, f);
    SortAscending(Of(input, p, f));
    SortKeeps(Of(input, p, f));
    forall k ensures k in Keys(Of(input, p, f)) <==> Listed(input, p, f, k) { OfMembers(input, p, f, k); }
  }

  lemma SameListed(a: seq<Device>, b: seq<Device>, p: string, f: string, k: Key)
    requires SameDevices(a, b)
    ensures Listed(a, p, f, k) <==> Listed(b, p, f, k)
  {
    if Listed(a, p, f, k) { ListedWithin(a, b, p, f, k); }
    if Listed(b, p, f, k) { ListedWithin(b, a, p, f, k); }
  }

  /** A floor lists the same devices in the same order whatever the input order was. */
  lemma SameFloor(a: seq<Device>, b: seq<Device>, p: string, f: string)
    requires SameDevices(a, b)
    ensures Keys(OnFloor(a, p, f)) == Keys(OnFloor(b, p, f)) && |Of(a, p, f)| == |Of(b, p, f)|
  {
    assert DistinctKeys(a) && DistinctKeys(b);
    hide *;
    FloorKeys(a, p, f);
    FloorKeys(b, p, f);
    forall k ensures Listed(a, p, f, k) <==> Listed(b, p, f, k) { SameListed(a, b, p, f, k); }
    KeyOrderAsymmetric();
    AscendingUnique(KeyLess, Keys(OnFloor(a, p, f)), Keys(OnFloor(b, p, f)));
    SameKeyCount(OnFloor(a, p, f), OnFloor(b, p, f));
  }

  lemma SameKeyCount(a: seq<Device>, b: seq<Device>)
    requires Keys(a) == Keys(b)
    ensures |a| == |b|
  {
  }

  lemma ListedWithin(a: seq<Device>, b: seq<Device>, p: string, f: string, k: Key)
    requires SpotsWithin(a, b) && Listed(a, p, f, k)
    ensures Listed(b, p, f, k)
  {
    var i :| 0 <= i < |a| && IsAt(a[i], p, f, k);
    var j :| 0 <= j < |b| && SameSpot(a[i], b[j]);
    assert IsAt(b[j], p, f, k);
  }

  lemma {:induction false} SameFloors(a: seq<Device>, b: seq<Device>, p: string, fs: seq<string>)
    requires SameDevices(a, b)
    ensures SizesOf(a, p, fs) == SizesOf(b, p, fs)
    ensures Keys(FloorsFlat(a, p, fs)) == Keys(FloorsFlat(b, p, fs))
  {
    if fs != [] {
      var last := |fs| - 1;
      SameFloors(a, b, p, fs[..last]);
      SameFloor(a, b, p, fs[last]);
      KeysConcat(FloorsFlat(a, p, fs[..last]), OnFloor(a, p, fs[last]));
      KeysConcat(FloorsFlat(b, p, fs[..last]), OnFloor(b, p, fs[last]));
    }
  }

  lemma KeysConcat(a: seq<Device>, b: seq<Device>)
    ensures Keys(a + b) == Keys(a) + Keys(b)
  {
  }

  lemma {:induction false} SamePlants(a: seq<Device>, b: seq<Device>, ps: seq<string>)
    requires SameDevices(a, b)
    ensures ShapeOf(a, ps) == ShapeOf(b, ps)
    ensures Keys(PlantsFlat(a, ps)) == Keys(PlantsFlat(b, ps))
  {
    if ps != [] {
      var last := |ps| - 1;
      var p := ps[last];
      SamePlants(a, b, ps[..last]);
      SameGroups(a, b, p);
      SameFloors(a, b, p, FloorNames(a, p));
      KeysConcat(PlantsFlat(a, ps[..last]), FloorsFlat(a, p, FloorNames(a, p)));
      KeysConcat(PlantsFlat(b, ps[..last]), FloorsFlat(b, p, FloorNames(b, p)));
    }
  }

  /** Live readings never move a pillar: the positions of a scene are the same for any
      order of the input and for any values and critical flags. */
  lemma PositionsIgnoreReadings(st: Style, ra: Ranges, a: seq<Device>, rb: Ranges, b: seq<Device>, i: nat)
    requires st.maxColumns >= 1 && a != [] && b != [] && SameDevices(a, b)
    requires i < |SceneOf(st, ra, a).devices|
    ensures |SceneOf(st, rb, b).devices| == |SceneOf(st, ra, a).devices|
    ensures var d, e := SceneOf(st, ra, a).devices[i], SceneOf(st, rb, b).devices[i];
            KeyOf(d.device) == KeyOf(e.device) && d.x == e.x && d.z == e.z && d.zone == e.zone
  {
    hide *;
    SameScene(a, b);
    SceneCounts(st, ra, a);
    SceneCounts(st, rb, b);
    PillarParts(st, ra, a, i);
    PillarParts(st, rb, b, i);
    SameKeyAt(Flat(a), Flat(b), i);
  }

  lemma SameKeyAt(a: seq<Device>, b: seq<Device>, i: nat)
    requires Keys(a) == Keys(b) && i < |a|
    ensures i < |b| && KeyOf(a[i]) == KeyOf(b[i])
  {
    assert Keys(a)[i] == Keys(b)[i];
  }

  lemma SameScene(a: seq<Device>, b: seq<Device>)
    requires SameDevices(a, b)
    ensures SceneShape(a) == SceneShape(b) && Keys(Flat(a)) == Keys(Flat(b))
  {
    SameGroups(a, b, "");
    SamePlants(a, b, PlantNames(a));
  }

  // ---- Heights over many frames ----

  /** Laying out the same devices again leaves the ranges alone, so that every height is
      then the value's place in the range of its sensor. */
  lemma SecondFrameIsSettled(st: Style, rs: Ranges, input: seq<Device>, i: nat)
    requires st.maxColumns >= 1 && input != []
    requires i < |SceneOf(st, RangesAfter(rs, Flat(input)), input).devices|
    ensures var settled := RangesAfter(rs, Flat(input));
            var d := SceneOf(st, settled, input).devices[i];
            && RangesAfter(settled, Flat(input)) == settled
            && d.device.sensor in settled
            && d.height == HeightIn(settled[d.device.sensor], d.device.value)
  {
    var ds := Flat(input);
    var settled := RangesAfter(rs, ds);
    RangesBracketJustEnough(rs, ds);
    BracketedRangesStay(settled, ds);
    PillarParts(st, settled, input, i);
    BracketedRangesStay(settled, ds[..i + 1]);
    assert Brackets(settled, ds[i]);
  }

  predicate Stretches(r: Range) { r.hi - r.lo > 0.000000001 }

  /** From the second frame on, the pillars of one sensor are as tall as their values are
      great, strictly so once the sensor's range is wide enough to stretch. */
  lemma SettledHeightsFollowValues(st: Style, rs: Ranges, input: seq<Device>, i: nat, j: nat)
    requires st.maxColumns >= 1 && input != []
    requires var ds := SceneOf(st, RangesAfter(rs, Flat(input)), input).devices;
             i < |ds| && j < |ds| && ds[i].device.sensor == ds[j].device.sensor
             && ds[i].device.value <= ds[j].device.value
    ensures var settled := RangesAfter(rs, Flat(input));
            var a, b := SceneOf(st, settled, input).devices[i], SceneOf(st, settled, input).devices[j];
            && a.height <= b.height
            && a.device.sensor in settled
            && (a.device.value < b.device.value && Stretches(settled[a.device.sensor]) ==> a.height < b.height)
  {
    hide SceneOf, Flat, RangesAfter, HeightIn;
    var settled := RangesAfter(rs, Flat(input));
    SecondFrameIsSettled(st, rs, input, i);
    SecondFrameIsSettled(st, rs, input, j);
    PillarParts(st, settled, input, i);
    PillarParts(st, settled, input, j);
    RangesBracketJustEnough(rs, Flat(input));
    assert Brackets(settled, Flat(input)[i]) && Brackets(settled, Flat(input)[j]);
    var a, b := Flat(input)[i], Flat(input)[j];
    HeightsFollowValues(settled[a.sensor], a.value, b.value);
  }

  /** A pillar's height is always between 0.15 and 1. */
  lemma HeightsInRange(st: Style, rs: Ranges, input: seq<Device>, i: nat)
    requires st.maxColumns >= 1 && input != [] && i < |SceneOf(st, rs, input).devices|
    ensures 0.15 <= SceneOf(st, rs, input).devices[i].height <= 1.0
  {
    var ds := Flat(input);
    PillarParts(st, rs, input, i);
    RangesBracketJustEnough(rs, ds[..i + 1]);
    assert Brackets(RangesAfter(rs, ds[..i + 1]), ds[..i + 1][i]);
  }

  /** The ranges after a run of frames. */
  ghost function RangesOver(rs: Ranges, frames: seq<seq<Device>>): Ranges {
    if frames == [] then rs
    else
      var before, last := RangesOver(rs, frames[..|frames| - 1]), frames[|frames| - 1];
      if last == [] then before else RangesAfter(before, Flat(last))
  }

  lemma RangesOverNext(rs: Ranges, frames: seq<seq<Device>>)
    requires frames != [] && frames[|frames| - 1] != []
    ensures RangesOver(rs, frames)
         == RangesAfter(RangesOver(rs, frames[..|frames| - 1]), Flat(frames[|frames| - 1]))
  {
    hide Flat, RangesAfter;
  }

  lemma FrameBrackets(before: Ranges, frame: seq<Device>, d: Device)
    ensures d in frame ==> Brackets(RangesAfter(before, Flat(frame)), d)
    ensures Brackets(before, d) ==> Brackets(RangesAfter(before, Flat(frame)), d)
  {
    hide Flat, RangesAfter, Reached;
    RangesBracketJustEnough(before, Flat(frame));
    FlatKeepsEveryDevice(frame);
    assert d in frame ==> d in multiset(Flat(frame));
  }

  /** Over any number of frames the ranges bracket every value ever shown. */
  lemma {:induction false} RangesBracketAllFrames(rs: Ranges, frames: seq<seq<Device>>, f: nat, i: nat)
    requires f < |frames| && i < |frames[f]|
    ensures Brackets(RangesOver(rs, frames), frames[f][i])
    decreases |frames|
  {
    var last := |frames| - 1;
    if f < last { RangesBracketAllFrames(rs, frames[..last], f, i); }
    if frames[last] != [] {
      hide *;
      RangesOverNext(rs, frames);
      FrameBrackets(RangesOver(rs, frames[..last]), frames[last], frames[f][i]);
    }
  }
}
