/** The layout of the 3D plant view: grouping, sorting, placing, normalising, centring. */
module PlantLayout {
  import opened KeyOrder
  import opened PlantGeometry
  import opened Sequences

  datatype Device = Device(
    id: string, sensor: string, plant: string, floor: string, value: real, critical: bool)

  datatype Key = Key(id: string, sensor: string)

  datatype Placed = Placed(device: Device, x: real, z: real, height: real, zone: nat)

  datatype Zone = Zone(
    plant: string, floor: string, x: real, z: real, width: real, depth: real, count: nat, critical: nat)

  datatype Scene = Scene(devices: seq<Placed>, zones: seq<Zone>, width: real, depth: real)

  // ---- Grouping by plant and floor ----

  type Groups = map<string, map<string, seq<Device>>>

  /** The devices of one floor, in input order. */
  function Of(input: seq<Device>, p: string, f: string): seq<Device> {
    if input == [] then []
    else
      var last := |input| - 1;
      Of(input[..last], p, f)
      + if input[last].plant == p && input[last].floor == f then [input[last]] else []
  }

  ghost function Plants(input: seq<Device>): set<string> {
    set i | 0 <= i < |input| :: input[i].plant
  }

  ghost function Floors(input: seq<Device>, p: string): set<string> {
    set i | 0 <= i < |input| && input[i].plant == p :: input[i].floor
  }

  ghost predicate GroupedBy(input: seq<Device>, groups: Groups) {
    && groups.Keys == Plants(input)
    && forall p | p in groups :: PlantGrouped(input, p, groups[p])
  }

  ghost predicate PlantGrouped(input: seq<Device>, p: string, floors: map<string, seq<Device>>) {
    && floors.Keys == Floors(input, p)
    && forall f | f in floors :: floors[f] == Of(input, p, f)
  }

  lemma {:induction false} OfCounts(input: seq<Device>, p: string, f: string, d: Device)
    ensures multiset(Of(input, p, f))[d]
         == if d.plant == p && d.floor == f then multiset(input)[d] else 0
  {
    if input != [] {
      var last := |input| - 1;
      OfCounts(input[..last], p, f, d);
      SplitLast(input);
    }
  }

  lemma {:induction false} OfNonEmpty(input: seq<Device>, p: string, f: string)
    ensures Of(input, p, f) != [] <==> exists i :: 0 <= i < |input| && input[i].plant == p && input[i].floor == f
  {
    if input != [] {
      var last := |input| - 1;
      OfNonEmpty(input[..last], p, f);
      assert forall i | 0 <= i < last :: input[..last][i] == input[i];
    }
  }

  lemma GroupStep(input: seq<Device>, i: nat, p: string)
    requires i < |input|
    ensures Plants(input[..i + 1]) == Plants(input[..i]) + {input[i].plant}
    ensures Floors(input[..i + 1], p)
         == Floors(input[..i], p) + if input[i].plant == p then {input[i].floor} else {}
  {
    var a, b := input[..i], input[..i + 1];
    forall k ensures k in Plants(b) <==> k in Plants(a) + {input[i].plant} {
      if k in Plants(a) { var j :| 0 <= j < |a| && a[j].plant == k; assert b[j] == a[j]; }
      if k == input[i].plant { assert b[i].plant == k; }
    }
    var one := if input[i].plant == p then {input[i].floor} else {};
    forall k ensures k in Floors(b, p) <==> k in Floors(a, p) + one {
      if k in Floors(a, p) { var j :| 0 <= j < |a| && a[j].plant == p && a[j].floor == k; assert b[j] == a[j]; }
      if k in one { assert b[i].plant == p && b[i].floor == k; }
    }
  }

  lemma OfStep(input: seq<Device>, i: nat, p: string, f: string)
    requires i < |input|
    ensures Of(input[..i + 1], p, f)
         == Of(input[..i], p, f) + if input[i].plant == p && input[i].floor == f then [input[i]] else []
  {
    assert input[..i + 1][..i] == input[..i];
  }

  function FloorsOf(groups: Groups, p: string): map<string, seq<Device>> {
    if p in groups then groups[p] else map[]
  }

  /** `groups[d.plant][d.floor].push_back(d)`. */
  function Pushed(floors: map<string, seq<Device>>, d: Device): map<string, seq<Device>> {
    floors[d.floor := (if d.floor in floors then floors[d.floor] else []) + [d]]
  }

  lemma NoDevices(input: seq<Device>, p: string, f: string)
    requires f !in Floors(input, p)
    ensures Of(input, p, f) == []
  {
    OfNonEmpty(input, p, f);
    forall i | 0 <= i < |input| && input[i].plant == p ensures input[i].floor != f {
      assert input[i].floor in Floors(input, p);
    }
  }

  lemma PushedGroups(input: seq<Device>, i: nat, p: string, floors: map<string, seq<Device>>)
    requires i < |input| && PlantGrouped(input[..i], p, floors)
    ensures PlantGrouped(input[..i + 1], p, if input[i].plant == p then Pushed(floors, input[i]) else floors)
  {
    hide Of, Floors, Plants;
    GroupStep(input, i, p);
    var d := input[i];
    if d.floor !in floors { NoDevices(input[..i], p, d.floor); }
    var after := if d.plant == p then Pushed(floors, d) else floors;
    forall f | f in after ensures after[f] == Of(input[..i + 1], p, f) { OfStep(input, i, p, f); }
  }

  lemma PushedKeepsGrouping(input: seq<Device>, i: nat, groups: Groups)
    requires i < |input| && GroupedBy(input[..i], groups)
    ensures var d := input[i];
            GroupedBy(input[..i + 1], groups[d.plant := Pushed(FloorsOf(groups, d.plant), d)])
  {
    var d := input[i];
    var after := groups[d.plant := Pushed(FloorsOf(groups, d.plant), d)];
    GroupStep(input, i, d.plant);
    forall p | p in after ensures PlantGrouped(input[..i + 1], p, after[p]) {
      if p !in groups { NoFloors(input[..i], p); }
      PushedGroups(input, i, p, FloorsOf(groups, p));
    }
  }

  lemma NoFloors(input: seq<Device>, p: string)
    requires p !in Plants(input)
    ensures Floors(input, p) == {}
  {
    forall i | 0 <= i < |input| ensures input[i].plant != p { assert input[i].plant in Plants(input); }
  }

  method Group(input: seq<Device>) returns (groups: Groups)
    ensures GroupedBy(input, groups)
  {
    groups := map[];
    for i := 0 to |input|
      invariant GroupedBy(input[..i], groups)
    {
      var d := input[i];
      PushedKeepsGrouping(input, i, groups);
      groups := groups[d.plant := Pushed(FloorsOf(groups, d.plant), d)];
    }
    assert input[..|input|] == input;
  }

  // ---- Sorting the devices of a floor ----

  function KeyOf(d: Device): Key { Key(d.id, d.sensor) }

  predicate KeyLess(a: Key, b: Key) {
    if a.id != b.id then Less(a.id, b.id) else Less(a.sensor, b.sensor)
  }

  function Keys(ds: seq<Device>): (r: seq<Key>)
    ensures |r| == |ds|
  {
    seq(|ds|, i requires 0 <= i < |ds| => KeyOf(ds[i]))
  }

  function Insert(d: Device, ds: seq<Device>): seq<Device> {
    if ds == [] || KeyLess(KeyOf(d), KeyOf(ds[0])) then [d] + ds
    else [ds[0]] + Insert(d, ds[1..])
  }

  /** `std::sort` by device id and then sensor. It may leave equal keys in any order; here
      they stay in input order. */
  function SortDevices(ds: seq<Device>): seq<Device> {
    if ds == [] then [] else Insert(ds[|ds| - 1], SortDevices(ds[..|ds| - 1]))
  }

  lemma {:induction false} InsertKeeps(d: Device, ds: seq<Device>)
    ensures multiset(Insert(d, ds)) == multiset(ds) + multiset{d}
  {
    if !(ds == [] || KeyLess(KeyOf(d), KeyOf(ds[0]))) {
      InsertKeeps(d, ds[1..]);
      assert ds == [ds[0]] + ds[1..];
    }
  }

  lemma {:induction false} SortKeeps(ds: seq<Device>)
    ensures multiset(SortDevices(ds)) == multiset(ds)
    ensures |SortDevices(ds)| == |ds|
  {
    if ds != [] {
      var last := |ds| - 1;
      SortKeeps(ds[..last]);
      InsertKeeps(ds[last], SortDevices(ds[..last]));
      assert ds == ds[..last] + [ds[last]];
    }
    assert |multiset(SortDevices(ds))| == |multiset(ds)|;
  }

  ghost predicate DistinctKeys(ds: seq<Device>) {
    forall i, j | 0 <= i < j < |ds| :: KeyOf(ds[i]) != KeyOf(ds[j])
  }

  lemma KeyOrderAsymmetric()
    ensures Asymmetric(KeyLess)
  {
    forall a, b ensures (a == b || KeyLess(a, b) || KeyLess(b, a)) && !(KeyLess(a, b) && KeyLess(b, a)) {
      LessTotal(a.id, b.id);
      LessTotal(a.sensor, b.sensor);
    }
  }

  lemma KeyLessTransitive(a: Key, b: Key, c: Key)
    requires KeyLess(a, b) && KeyLess(b, c)
    ensures KeyLess(a, c)
  {
    if a.id == b.id {
      if b.id == c.id { LessTransitive(a.sensor, b.sensor, c.sensor); }
    } else if b.id != c.id {
      LessTransitive(a.id, b.id, c.id);
      LessTotal(a.id, c.id);
    }
  }

  lemma KeysPrepend(d: Device, ds: seq<Device>)
    ensures Keys([d] + ds) == [KeyOf(d)] + Keys(ds)
  {
  }

  lemma AscendingPrepend(k: Key, ks: seq<Key>)
    requires Ascending(KeyLess, ks) && forall j | j in ks :: KeyLess(k, j)
    ensures Ascending(KeyLess, [k] + ks)
  {
  }

  lemma BeforeAll(k: Key, ks: seq<Key>)
    requires Ascending(KeyLess, ks) && (ks != [] ==> KeyLess(k, ks[0]))
    ensures forall j | j in ks :: KeyLess(k, j)
  {
    forall i | 0 <= i < |ks| ensures KeyLess(k, ks[i]) {
      if i > 0 { KeyLessTransitive(k, ks[0], ks[i]); }
    }
  }

  lemma HeadBeforeTail(ds: seq<Device>, k: Key)
    requires ds != [] && Ascending(KeyLess, Keys(ds)) && k !in Keys(ds) && !KeyLess(k, KeyOf(ds[0]))
    ensures Ascending(KeyLess, Keys(ds[1..])) && k !in Keys(ds[1..]) && KeyLess(KeyOf(ds[0]), k)
    ensures forall j | j in Keys(ds[1..]) :: KeyLess(KeyOf(ds[0]), j)
    ensures forall j :: j in Keys(ds) <==> j == KeyOf(ds[0]) || j in Keys(ds[1..])
  {
    assert ds == [ds[0]] + ds[1..];
    KeysPrepend(ds[0], ds[1..]);
    assert Keys(ds)[0] == KeyOf(ds[0]);
    assert forall i | 0 <= i < |ds| - 1 :: Keys(ds[1..])[i] == Keys(ds)[i + 1];
    KeyOrderAsymmetric();
  }

  lemma {:induction false} InsertAscending(d: Device, ds: seq<Device>)
    requires Ascending(KeyLess, Keys(ds)) && KeyOf(d) !in Keys(ds)
    ensures Ascending(KeyLess, Keys(Insert(d, ds)))
    ensures forall k :: k in Keys(Insert(d, ds)) <==> k in Keys(ds) || k == KeyOf(d)
  {
    if ds == [] || KeyLess(KeyOf(d), KeyOf(ds[0])) {
      KeysPrepend(d, ds);
      BeforeAll(KeyOf(d), Keys(ds));
      AscendingPrepend(KeyOf(d), Keys(ds));
    } else {
      var head, rest := ds[0], ds[1..];
      HeadBeforeTail(ds, KeyOf(d));
      InsertAscending(d, rest);
      KeysPrepend(head, Insert(d, rest));
      AscendingPrepend(KeyOf(head), Keys(Insert(d, rest)));
    }
  }

  lemma {:induction false} SortAscending(ds: seq<Device>)
    requires DistinctKeys(ds)
    ensures Ascending(KeyLess, Keys(SortDevices(ds)))
    ensures forall k :: k in Keys(SortDevices(ds)) <==> k in Keys(ds)
  {
    if ds != [] {
      var last := |ds| - 1;
      SortAscending(ds[..last]);
      assert Keys(ds) == Keys(ds[..last]) + [KeyOf(ds[last])];
      assert KeyOf(ds[last]) !in Keys(ds[..last]);
      InsertAscending(ds[last], SortDevices(ds[..last]));
    }
  }

  // ---- The order of the scene and the shape it gives rise to ----

  ghost function OnFloor(input: seq<Device>, p: string, f: string): seq<Device> {
    SortDevices(Of(input, p, f))
  }

  ghost function FloorNames(input: seq<Device>, p: string): seq<string> { SortedKeys(Floors(input, p)) }

  ghost function PlantNames(input: seq<Device>): seq<string> { SortedKeys(Plants(input)) }

  ghost function FloorsFlat(input: seq<Device>, p: string, fs: seq<string>): seq<Device> {
    if fs == [] then []
    else FloorsFlat(input, p, fs[..|fs| - 1]) + OnFloor(input, p, fs[|fs| - 1])
  }

  ghost function PlantsFlat(input: seq<Device>, ps: seq<string>): seq<Device> {
    if ps == [] then []
    else
      var p := ps[|ps| - 1];
      PlantsFlat(input, ps[..|ps| - 1]) + FloorsFlat(input, p, FloorNames(input, p))
  }

  /** The devices in scene order. */
  ghost function Flat(input: seq<Device>): seq<Device> { PlantsFlat(input, PlantNames(input)) }

  ghost function SizesOf(input: seq<Device>, p: string, fs: seq<string>): (r: Sizes)
    ensures |r| == |fs|
  {
    if fs == [] then [] else SizesOf(input, p, fs[..|fs| - 1]) + [|Of(input, p, fs[|fs| - 1])|]
  }

  ghost function ShapeOf(input: seq<Device>, ps: seq<string>): (r: Shape)
    ensures |r| == |ps|
  {
    if ps == [] then []
    else
      var p := ps[|ps| - 1];
      ShapeOf(input, ps[..|ps| - 1]) + [SizesOf(input, p, FloorNames(input, p))]
  }

  ghost function SceneShape(input: seq<Device>): Shape { ShapeOf(input, PlantNames(input)) }

  datatype Info = Info(plant: string, floor: string, count: nat, critical: nat)

  function Criticals(ds: seq<Device>): nat {
    if ds == [] then 0 else Criticals(ds[..|ds| - 1]) + if ds[|ds| - 1].critical then 1 else 0
  }

  ghost function InfoOf(input: seq<Device>, p: string, f: string): Info {
    Info(p, f, |Of(input, p, f)|, Criticals(OnFloor(input, p, f)))
  }

  ghost function FloorInfos(input: seq<Device>, p: string, fs: seq<string>): (r: seq<Info>)
    ensures |r| == |fs|
  {
    if fs == [] then [] else FloorInfos(input, p, fs[..|fs| - 1]) + [InfoOf(input, p, fs[|fs| - 1])]
  }

  ghost function PlantInfos(input: seq<Device>, ps: seq<string>): seq<Info> {
    if ps == [] then []
    else
      var p := ps[|ps| - 1];
      PlantInfos(input, ps[..|ps| - 1]) + FloorInfos(input, p, FloorNames(input, p))
  }

  ghost function Infos(input: seq<Device>): seq<Info> { PlantInfos(input, PlantNames(input)) }

  lemma {:induction false} OneInfoPerZone(st: Style, input: seq<Device>, ps: seq<string>)
    requires st.maxColumns >= 1
    ensures |PlantInfos(input, ps)| == |Rects(st, ShapeOf(input, ps))|
  {
    if ps != [] {
      OneInfoPerZone(st, input, ps[..|ps| - 1]);
      assert ShapeOf(input, ps)[..|ps| - 1] == ShapeOf(input, ps[..|ps| - 1]);
    }
  }

  function ZoneAt(info: Info, r: Rect): Zone {
    Zone(info.plant, info.floor, r.x, r.z, r.width, r.depth, info.count, info.critical)
  }

  function Zip(infos: seq<Info>, rs: seq<Rect>): (r: seq<Zone>)
    requires |infos| == |rs|
    ensures |r| == |rs|
  {
    seq(|rs|, i requires 0 <= i < |rs| => ZoneAt(infos[i], rs[i]))
  }

  lemma ZipJoin(i1: seq<Info>, r1: seq<Rect>, i2: seq<Info>, r2: seq<Rect>)
    requires |i1| == |r1| && |i2| == |r2|
    ensures Zip(i1 + i2, r1 + r2) == Zip(i1, r1) + Zip(i2, r2)
  {
  }

  lemma ZipNext(infos: seq<Info>, rs: seq<Rect>, info: Info, r: Rect)
    requires |infos| == |rs|
    ensures Zip(infos + [info], rs + [r]) == Zip(infos, rs) + [ZoneAt(info, r)]
  {
  }

  // ---- Heights ----

  datatype Range = Range(lo: real, hi: real)

  type Ranges = map<string, Range>

  function Clamp01(t: real): real { if t < 0.0 then 0.0 else if t > 1.0 then 1.0 else t }

  /** The height of a value within a range, as a fraction of a full pillar. */
  function HeightIn(r: Range, value: real): (h: real)
    ensures 0.15 <= h <= 1.0
  {
    var span := r.hi - r.lo;
    var t := if span > 0.000000001 then (value - r.lo) / span else 0.5;
    0.15 + 0.85 * Clamp01(t)
  }

  lemma HeightIsEven(r: Range, a: real)
    ensures r.hi - r.lo > 0.000000001 && r.lo <= a <= r.hi ==>
              (HeightIn(r, a) - 0.15) * (r.hi - r.lo) == 0.85 * (a - r.lo)
  {
    var span := r.hi - r.lo;
    if span > 0.000000001 && r.lo <= a <= r.hi {
      var t := (a - r.lo) / span;
      assert t * span == a - r.lo;
      assert 0.0 / span == 0.0 && span / span == 1.0;
      DivideOrders(0.0, a - r.lo, span);
      DivideOrders(a - r.lo, span, span);
      assert HeightIn(r, a) == 0.15 + 0.85 * t;
      assert (0.85 * t) * span == 0.85 * (t * span);
    }
  }

  lemma NarrowIsMiddle(r: Range, a: real)
    ensures r.hi - r.lo <= 0.000000001 ==> HeightIn(r, a) == 0.575
  {
  }

  lemma HeightsInOrder(r: Range, a: real, b: real)
    requires a <= b
    ensures HeightIn(r, a) <= HeightIn(r, b)
    ensures a < b && r.lo <= a && b <= r.hi && r.hi - r.lo > 0.000000001 ==> HeightIn(r, a) < HeightIn(r, b)
    ensures r.hi - r.lo > 0.000000001 ==> HeightIn(r, r.lo) == 0.15 && HeightIn(r, r.hi) == 1.0
  {
    var span := r.hi - r.lo;
    if span > 0.000000001 {
      assert 0.0 / span == 0.0 && span / span == 1.0;
      DivideOrders(a - r.lo, b - r.lo, span);
      if r.lo <= a && b <= r.hi {
        DivideOrders(0.0, a - r.lo, span);
        DivideOrders(b - r.lo, span, span);
      }
    }
  }

  /** Within one range, heights are ordered as the values are, strictly so when the range
      is wide enough to stretch and holds both values. */
  lemma HeightsFollowValues(r: Range, a: real, b: real)
    requires a <= b
    ensures HeightIn(r, a) <= HeightIn(r, b)
    ensures a < b && r.lo <= a && b <= r.hi && r.hi - r.lo > 0.000000001 ==> HeightIn(r, a) < HeightIn(r, b)
    ensures r.hi - r.lo > 0.000000001 ==> HeightIn(r, r.lo) == 0.15 && HeightIn(r, r.hi) == 1.0
    ensures r.hi - r.lo > 0.000000001 && r.lo <= a <= r.hi ==>
              (HeightIn(r, a) - 0.15) * (r.hi - r.lo) == 0.85 * (a - r.lo)
    ensures r.hi - r.lo <= 0.000000001 ==> HeightIn(r, a) == 0.575
  {
    hide HeightIn;
    HeightsInOrder(r, a, b);
    HeightIsEven(r, a);
    NarrowIsMiddle(r, a);
  }

  lemma DivideOrders(a: real, b: real, c: real)
    requires a <= b && c > 0.0
    ensures a / c <= b / c && (a < b ==> a / c < b / c)
  {
    assert (b - a) / c >= 0.0;
    assert b / c - a / c == (b - a) / c;
  }

  /** The running range of a sensor after one more value. */
  function Widen(rs: Ranges, d: Device): Ranges {
    if d.sensor !in rs then rs[d.sensor := Range(d.value, d.value)]
    else rs[d.sensor := Range(Min(rs[d.sensor].lo, d.value), Max(rs[d.sensor].hi, d.value))]
  }

  /** The running ranges after normalising a run of devices one after another. */
  function RangesAfter(rs: Ranges, ds: seq<Device>): Ranges {
    if ds == [] then rs else Widen(RangesAfter(rs, ds[..|ds| - 1]), ds[|ds| - 1])
  }

  function Pillar(rs: Ranges, d: Device, c: Cell): Placed {
    Placed(d, c.x, c.z, if d.sensor in rs then HeightIn(rs[d.sensor], d.value) else 0.0, c.zone)
  }

  /** One pillar per device and cell; each height is taken at the moment of placing. */
  function Pillars(rs: Ranges, ds: seq<Device>, cs: seq<Cell>): seq<Placed> {
    if ds == [] || |ds| != |cs| then []
    else
      var last := |ds| - 1;
      Pillars(rs, ds[..last], cs[..last]) + [Pillar(RangesAfter(rs, ds), ds[last], cs[last])]
  }

  lemma {:induction false} RangesJoin(rs: Ranges, d1: seq<Device>, d2: seq<Device>)
    ensures RangesAfter(rs, d1 + d2) == RangesAfter(RangesAfter(rs, d1), d2)
  {
    if d2 == [] {
      assert d1 + d2 == d1;
    } else {
      var last := |d2| - 1;
      RangesJoin(rs, d1, d2[..last]);
      assert (d1 + d2)[..|d1| + last] == d1 + d2[..last];
    }
  }

  lemma PillarsNone(rs: Ranges, ds: seq<Device>, cs: seq<Cell>)
    requires ds == []
    ensures Pillars(rs, ds, cs) == []
  {
  }

  lemma PillarsNext(rs: Ranges, ds: seq<Device>, cs: seq<Cell>, d: Device, c: Cell)
    requires |ds| == |cs|
    ensures Pillars(rs, ds + [d], cs + [c]) == Pillars(rs, ds, cs) + [Pillar(RangesAfter(rs, ds + [d]), d, c)]
  {
    hide RangesAfter, Pillar;
    assert (ds + [d])[..|ds|] == ds && (cs + [c])[..|cs|] == cs;
  }

  lemma {:induction false} PillarsJoin(rs: Ranges, d1: seq<Device>, c1: seq<Cell>, d2: seq<Device>, c2: seq<Cell>)
    requires |d1| == |c1| && |d2| == |c2|
    ensures Pillars(rs, d1 + d2, c1 + c2) == Pillars(rs, d1, c1) + Pillars(RangesAfter(rs, d1), d2, c2)
  {
    hide *;
    if d2 == [] {
      PillarsNone(RangesAfter(rs, d1), d2, c2);
      assert d1 + d2 == d1 && c1 + c2 == c1;
    } else {
      var last := |d2| - 1;
      PillarsJoin(rs, d1, c1, d2[..last], c2[..last]);
      RangesJoin(rs, d1, d2);
      PillarsNext(rs, d1 + d2[..last], c1 + c2[..last], d2[last], c2[last]);
      PillarsNext(RangesAfter(rs, d1), d2[..last], c2[..last], d2[last], c2[last]);
      SplitLast(d2);
      SplitLast(c2);
      ConcatSplitsLast(d1, d2);
      ConcatSplitsLast(c1, c2);
    }
  }

  lemma {:induction false} PillarAt(rs: Ranges, ds: seq<Device>, cs: seq<Cell>, i: nat)
    requires |ds| == |cs| && i < |ds|
    ensures |Pillars(rs, ds, cs)| == |ds|
    ensures Pillars(rs, ds, cs)[i] == Pillar(RangesAfter(rs, ds[..i + 1]), ds[i], cs[i])
  {
    var last := |ds| - 1;
    if last > 0 { PillarAt(rs, ds[..last], cs[..last], if i < last then i else 0); }
    if i < last {
      assert ds[..last][..i + 1] == ds[..i + 1];
    } else {
      assert ds[..i + 1] == ds;
    }
  }

  // ---- The running ranges ----

  ghost predicate Brackets(rs: Ranges, d: Device) {
    d.sensor in rs && rs[d.sensor].lo <= d.value <= rs[d.sensor].hi
  }

  ghost predicate BracketsAll(rs: Ranges, ds: seq<Device>) {
    forall i | 0 <= i < |ds| :: Brackets(rs, ds[i])
  }

  ghost predicate Widened(a: Ranges, b: Ranges) {
    forall s | s in a :: s in b && b[s].lo <= a[s].lo && a[s].hi <= b[s].hi
  }

  /** A bound is one that was there before or the value of one of the devices. */
  ghost predicate Reached(before: Ranges, ds: seq<Device>, s: string, bound: real) {
    || (s in before && (bound == before[s].lo || bound == before[s].hi))
    || exists i :: 0 <= i < |ds| && ds[i].sensor == s && ds[i].value == bound
  }

  /** The ranges bracket every value shown, and are no wider than that takes. */
  lemma {:induction false} RangesBracketJustEnough(rs: Ranges, ds: seq<Device>)
    ensures var after := RangesAfter(rs, ds);
            && Widened(rs, after) && BracketsAll(after, ds)
            && forall s | s in after :: Reached(rs, ds, s, after[s].lo) && Reached(rs, ds, s, after[s].hi)
  {
    if ds != [] {
      var last := |ds| - 1;
      var mid, after := RangesAfter(rs, ds[..last]), RangesAfter(rs, ds);
      RangesBracketJustEnough(rs, ds[..last]);
      WidenBrackets(mid, ds[last]);
      forall i | 0 <= i < |ds| ensures Brackets(after, ds[i]) {
        if i < last { assert Brackets(mid, ds[..last][i]); }
      }
      forall s | s in after ensures Reached(rs, ds, s, after[s].lo) && Reached(rs, ds, s, after[s].hi) {
        if s == ds[last].sensor { assert ds[last].sensor == s && ds[last].value == ds[last].value; }
        if s in mid {
          ReachedLonger(rs, ds, s, mid[s].lo);
          ReachedLonger(rs, ds, s, mid[s].hi);
        }
      }
    }
  }

  lemma WidenBrackets(rs: Ranges, d: Device)
    ensures Widened(rs, Widen(rs, d)) && Brackets(Widen(rs, d), d)
    ensures forall e :: Brackets(rs, e) ==> Brackets(Widen(rs, d), e)
  {
  }

  lemma ReachedLonger(rs: Ranges, ds: seq<Device>, s: string, bound: real)
    requires ds != [] && Reached(rs, ds[..|ds| - 1], s, bound)
    ensures Reached(rs, ds, s, bound)
  {
    var shorter := ds[..|ds| - 1];
    if exists i :: 0 <= i < |shorter| && shorter[i].sensor == s && shorter[i].value == bound {
      var i :| 0 <= i < |shorter| && shorter[i].sensor == s && shorter[i].value == bound;
      assert ds[i].sensor == s && ds[i].value == bound;
    }
  }

  /** Values already bracketed leave the ranges as they are. */
  lemma {:induction false} BracketedRangesStay(rs: Ranges, ds: seq<Device>)
    requires BracketsAll(rs, ds)
    ensures RangesAfter(rs, ds) == rs
  {
    if ds != [] {
      var last := |ds| - 1;
      BracketedRangesStay(rs, ds[..last]);
      assert Brackets(rs, ds[last]);
    }
  }

  // ---- Centring ----

  datatype Box = Box(minX: real, maxX: real, minZ: real, maxZ: real)

  const FAR := 1000000000000000000000000000000.0

  /** The running minimum and maximum of the zone borders, from the far sentinels. */
  function Bounds(rs: seq<Rect>): Box {
    if rs == [] then Box(FAR, -FAR, FAR, -FAR)
    else
      var b, r := Bounds(rs[..|rs| - 1]), rs[|rs| - 1];
      Box(Min(b.minX, Left(r)), Max(b.maxX, Right(r)), Min(b.minZ, Top(r)), Max(b.maxZ, Bottom(r)))
  }

  function MiddleX(b: Box): real { (b.minX + b.maxX) / 2.0 }

  function MiddleZ(b: Box): real { (b.minZ + b.maxZ) / 2.0 }

  function ShiftRect(r: Rect, b: Box): Rect { r.(x := r.x - MiddleX(b), z := r.z - MiddleZ(b)) }

  function ShiftRects(rs: seq<Rect>, b: Box): (r: seq<Rect>)
    ensures |r| == |rs|
  {
    seq(|rs|, i requires 0 <= i < |rs| => ShiftRect(rs[i], b))
  }

  function Moved(placed: seq<Placed>, b: Box): (r: seq<Placed>)
    ensures |r| == |placed|
  {
    seq(|placed|, i requires 0 <= i < |placed| =>
      placed[i].(x := placed[i].x - MiddleX(b), z := placed[i].z - MiddleZ(b)))
  }

  /** The scene made from an input when the running ranges are `rs`. */
  ghost function SceneOf(st: Style, rs: Ranges, input: seq<Device>): Scene
    requires st.maxColumns >= 1
  {
    if input == [] then Scene([], [], 0.0, 0.0)
    else
      var rects := Rects(st, SceneShape(input));
      var b := Bounds(rects);
      OneInfoPerZone(st, input, PlantNames(input));
      Scene(Moved(Pillars(rs, Flat(input), Cells(st, SceneShape(input))), b),
            Zip(Infos(input), ShiftRects(rects, b)),
            b.maxX - b.minX, b.maxZ - b.minZ)
  }

  // ---- Building the scene ----

  lemma NamesNext(input: seq<Device>, p: string, fs: seq<string>, i: nat)
    requires i < |fs|
    ensures SizesOf(input, p, fs[..i + 1]) == SizesOf(input, p, fs[..i]) + [|Of(input, p, fs[i])|]
    ensures FloorsFlat(input, p, fs[..i + 1]) == FloorsFlat(input, p, fs[..i]) + OnFloor(input, p, fs[i])
    ensures FloorInfos(input, p, fs[..i + 1]) == FloorInfos(input, p, fs[..i]) + [InfoOf(input, p, fs[i])]
  {
    assert fs[..i + 1][..i] == fs[..i];
  }

  lemma PlantsNext(input: seq<Device>, ps: seq<string>, i: nat)
    requires i < |ps|
    ensures var p := ps[i]; var fs := FloorNames(input, p);
            && ShapeOf(input, ps[..i + 1]) == ShapeOf(input, ps[..i]) + [SizesOf(input, p, fs)]
            && PlantsFlat(input, ps[..i + 1]) == PlantsFlat(input, ps[..i]) + FloorsFlat(input, p, fs)
            && PlantInfos(input, ps[..i + 1]) == PlantInfos(input, ps[..i]) + FloorInfos(input, p, fs)
  {
    assert ps[..i + 1][..i] == ps[..i];
  }

  lemma PlantWidthNext(st: Style, ns: Sizes, n: nat)
    ensures PlantWidth(st, ns + [n]) == Max(PlantWidth(st, ns), GridWidth(st, n))
  {
    assert (ns + [n])[..|ns|] == ns;
  }

  lemma ZonesNext(st: Style, px: real, width: real, ns: Sizes, n: nat, zone: nat)
    requires st.maxColumns >= 1
    ensures PlantRects(st, px, width, ns + [n])
         == PlantRects(st, px, width, ns) + [RectAt(st, px, width, ZAfter(st, ns), n)]
    ensures PlantCells(st, px, width, ns + [n], zone)
         == PlantCells(st, px, width, ns, zone) + FloorCells(st, px, width, ZAfter(st, ns), n, zone + |ns|)
    ensures ZAfter(st, ns + [n]) == ZAfter(st, ns) + (Depth(st, n) + st.zoneGap)
  {
    assert (ns + [n])[..|ns|] == ns;
  }

  lemma SceneNext(st: Style, shape: Shape, ns: Sizes)
    requires st.maxColumns >= 1
    ensures Rects(st, shape + [ns]) == Rects(st, shape) + PlantRects(st, XAfter(st, shape), PlantWidth(st, ns), ns)
    ensures Cells(st, shape + [ns])
         == Cells(st, shape) + PlantCells(st, XAfter(st, shape), PlantWidth(st, ns), ns, |Rects(st, shape)|)
    ensures XAfter(st, shape + [ns]) == XAfter(st, shape) + (PlantWidth(st, ns) + st.plantGap)
  {
    assert (shape + [ns])[..|shape|] == shape;
  }

  lemma {:induction false} OneCellPerDevice(st: Style, input: seq<Device>, p: string, fs: seq<string>, px: real,
                                            width: real, zone: nat)
    requires st.maxColumns >= 1
    ensures |FloorsFlat(input, p, fs)| == |PlantCells(st, px, width, SizesOf(input, p, fs), zone)|
  {
    if fs != [] {
      var last := |fs| - 1;
      OneCellPerDevice(st, input, p, fs[..last], px, width, zone);
      SortKeeps(Of(input, p, fs[last]));
      ZonesNext(st, px, width, SizesOf(input, p, fs[..last]), |Of(input, p, fs[last])|, zone);
    }
  }

  lemma {:induction false} OneCellPerSceneDevice(st: Style, input: seq<Device>, ps: seq<string>)
    requires st.maxColumns >= 1
    ensures |PlantsFlat(input, ps)| == |Cells(st, ShapeOf(input, ps))|
  {
    if ps != [] {
      var last := |ps| - 1;
      var shape, fs := ShapeOf(input, ps[..last]), FloorNames(input, ps[last]);
      var ns := SizesOf(input, ps[last], fs);
      OneCellPerSceneDevice(st, input, ps[..last]);
      SceneNext(st, shape, ns);
      OneCellPerDevice(st, input, ps[last], fs, XAfter(st, shape), PlantWidth(st, ns), |Rects(st, shape)|);
    }
  }

  datatype Sized = Sized(floor: string, devices: seq<Device>, columns: int, rows: int)

  function SizedOf(st: Style, f: string, ds: seq<Device>): Sized
    requires st.maxColumns >= 1
  {
    Sized(f, ds, Columns(st, |ds|), Rows(st, |ds|))
  }

  ghost function SizedFloors(st: Style, input: seq<Device>, p: string, fs: seq<string>): (r: seq<Sized>)
    requires st.maxColumns >= 1
    ensures |r| == |fs|
  {
    if fs == [] then []
    else SizedFloors(st, input, p, fs[..|fs| - 1]) + [SizedOf(st, fs[|fs| - 1], OnFloor(input, p, fs[|fs| - 1]))]
  }

  lemma SizedNext(st: Style, input: seq<Device>, p: string, fs: seq<string>, i: nat)
    requires st.maxColumns >= 1 && i < |fs|
    ensures var sized := SizedOf(st, fs[i], OnFloor(input, p, fs[i]));
            && SizedFloors(st, input, p, fs[..i + 1]) == SizedFloors(st, input, p, fs[..i]) + [sized]
            && PlantWidth(st, SizesOf(input, p, fs[..i + 1]))
               == Max(PlantWidth(st, SizesOf(input, p, fs[..i])), Along(sized.columns as real, st.spacing))
  {
    assert fs[..i + 1][..i] == fs[..i];
    NamesNext(input, p, fs, i);
    SortKeeps(Of(input, p, fs[i]));
    PlantWidthNext(st, SizesOf(input, p, fs[..i]), |Of(input, p, fs[i])|);
  }

  lemma {:induction false} SizedFloorAt(st: Style, input: seq<Device>, p: string, fs: seq<string>, i: nat)
    requires st.maxColumns >= 1 && i < |fs|
    ensures SizedFloors(st, input, p, fs)[i] == SizedOf(st, fs[i], OnFloor(input, p, fs[i]))
  {
    if i < |fs| - 1 { SizedFloorAt(st, input, p, fs[..|fs| - 1], i); }
  }

  /** How far a placing loop has come: what stands, where the next one goes, the ranges. */
  datatype Progress = Progress(placed: seq<Placed>, zones: seq<Zone>, at: real, ranges: Ranges)

  function FloorAdded(st: Style, s: Progress, p: string, f: string, ds: seq<Device>, px: real, width: real,
                      zone: nat): Progress
    requires st.maxColumns >= 1
  {
    Progress(s.placed + Pillars(s.ranges, ds, FloorCells(st, px, width, s.at, |ds|, zone)),
             s.zones + [ZoneAt(Info(p, f, |ds|, Criticals(ds)), RectAt(st, px, width, s.at, |ds|))],
             s.at + (Depth(st, |ds|) + st.zoneGap),
             RangesAfter(s.ranges, ds))
  }

  ghost function AfterFloors(st: Style, rs: Ranges, input: seq<Device>, p: string, fs: seq<string>, px: real,
                             width: real, zone0: nat): Progress
    requires st.maxColumns >= 1
  {
    if fs == [] then Progress([], [], 0.0, rs)
    else
      var last := |fs| - 1;
      FloorAdded(st, AfterFloors(st, rs, input, p, fs[..last], px, width, zone0), p, fs[last],
                 OnFloor(input, p, fs[last]), px, width, zone0 + last)
  }

  lemma AfterFloorsNext(st: Style, rs: Ranges, input: seq<Device>, p: string, fs: seq<string>, i: nat, px: real,
                        width: real, zone0: nat)
    requires st.maxColumns >= 1 && i < |fs|
    ensures AfterFloors(st, rs, input, p, fs[..i + 1], px, width, zone0)
         == FloorAdded(st, AfterFloors(st, rs, input, p, fs[..i], px, width, zone0), p, fs[i],
                       OnFloor(input, p, fs[i]), px, width, zone0 + i)
  {
    hide FloorAdded, OnFloor;
    assert fs[..i + 1][..i] == fs[..i];
  }

  ghost function PlantAdded(st: Style, s: Progress, input: seq<Device>, p: string): Progress
    requires st.maxColumns >= 1
  {
    var width := PlantWidth(st, SizesOf(input, p, FloorNames(input, p)));
    var here := AfterFloors(st, s.ranges, input, p, FloorNames(input, p), s.at, width, |s.zones|);
    Progress(s.placed + here.placed, s.zones + here.zones, s.at + (width + st.plantGap), here.ranges)
  }

  ghost function AfterPlants(st: Style, rs: Ranges, input: seq<Device>, ps: seq<string>): Progress
    requires st.maxColumns >= 1
  {
    if ps == [] then Progress([], [], 0.0, rs)
    else PlantAdded(st, AfterPlants(st, rs, input, ps[..|ps| - 1]), input, ps[|ps| - 1])
  }

  class Layout {
    var spacing: real
    var zoneGap: real
    var plantGap: real
    var maxColumns: int
    var ranges: Ranges

    ghost function St(): Style
      reads this
    {
      Style(spacing, zoneGap, plantGap, maxColumns)
    }

    constructor ()
      ensures Sane(St()) && ranges == map[]
      ensures spacing == 2.4 && zoneGap == 3.0 && plantGap == 6.0 && maxColumns == 12
    {
      spacing, zoneGap, plantGap, maxColumns := 2.4, 3.0, 6.0, 12;
      ranges := map[];
    }

    method Normalise(d: Device) returns (height: real)
      modifies `ranges
      ensures ranges == Widen(old(ranges), d)
      ensures height == HeightIn(ranges[d.sensor], d.value)
      ensures var r := if d.sensor in old(ranges) then old(ranges)[d.sensor] else Range(d.value, d.value);
              ranges == old(ranges)[d.sensor := Range(if d.value < r.lo then d.value else r.lo,
                                                      if d.value > r.hi then d.value else r.hi)]
    {
      var r: Range;
      if d.sensor !in ranges {
        r := Range(d.value, d.value);
      } else {
        r := ranges[d.sensor];
        r := Range(Min(r.lo, d.value), Max(r.hi, d.value));
      }
      ranges := ranges[d.sensor := r];
      var span := r.hi - r.lo;
      var t := if span > 0.000000001 then (d.value - r.lo) / span else 0.5;
      height := 0.15 + 0.85 * Clamp01(t);
    }

    /** The grid loop over one floor. */
    method PlaceFloor(st: Style, f: Sized, px: real, width: real, z: real, zone: nat)
      returns (placed: seq<Placed>, critical: nat)
      requires st.maxColumns >= 1 && f == SizedOf(st, f.floor, f.devices)
      modifies `ranges
      ensures placed == Pillars(old(ranges), f.devices, FloorCells(st, px, width, z, |f.devices|, zone))
      ensures critical == Criticals(f.devices)
      ensures ranges == RangesAfter(old(ranges), f.devices)
    {
      var gridWidth := Along(f.columns as real, st.spacing);
      placed, critical := [], 0;
      ghost var ds, cells := f.devices, FloorCells(st, px, width, z, |f.devices|, zone);
      for i := 0 to |f.devices|
        invariant placed == Pillars(old(ranges), ds[..i], cells[..i])
        invariant critical == Criticals(ds[..i])
        invariant ranges == RangesAfter(old(ranges), ds[..i])
      {
        var d := f.devices[i];
        var x := px + width / 2.0 - gridWidth / 2.0 + Along((i % f.columns) as real + 0.5, st.spacing);
        var pz := z + Along((i / f.columns) as real + 0.5, st.spacing);
        assert ds[..i + 1][..i] == ds[..i] && cells[..i + 1][..i] == cells[..i];
        var height := Normalise(d);
        if d.critical { critical := critical + 1; }
        placed := placed + [Placed(d, x, pz, height, zone)];
      }
      assert ds[..|ds|] == ds && cells[..|ds|] == cells;
    }

    /** Sizes every floor of a plant; the plant is as wide as the widest of them. */
    method SizePlant(st: Style, plant: map<string, seq<Device>>, ghost input: seq<Device>, ghost p: string)
      returns (floors: seq<Sized>, width: real)
      requires st.maxColumns >= 1 && PlantGrouped(input, p, plant)
      ensures floors == SizedFloors(st, input, p, FloorNames(input, p))
      ensures width == PlantWidth(st, SizesOf(input, p, FloorNames(input, p)))
    {
      var names := KeysInOrder(plant.Keys);
      floors, width := [], 0.0;
      for i := 0 to |names|
        invariant floors == SizedFloors(st, input, p, names[..i])
        invariant width == PlantWidth(st, SizesOf(input, p, names[..i]))
      {
        var f := names[i];
        assert f in names;
        var devices := SortDevices(plant[f]);
        var n := |devices|;
        var columns := Columns(st, n);
        var rows := RowsFor(n, columns);
        SizedNext(st, input, p, names, i);
        floors := floors + [Sized(f, devices, columns, rows)];
        width := Max(width, Along(columns as real, st.spacing));
      }
      assert names[..|names|] == names;
    }

    /** Stacks the floors of one plant and places their devices. */
    method PlacePlant(st: Style, floors: seq<Sized>, p: string, px: real, width: real, zone0: nat,
                      ghost input: seq<Device>, ghost fs: seq<string>)
      returns (placed: seq<Placed>, zones: seq<Zone>)
      requires st.maxColumns >= 1 && floors == SizedFloors(st, input, p, fs)
      modifies `ranges
      ensures var s := AfterFloors(st, old(ranges), input, p, fs, px, width, zone0);
              placed == s.placed && zones == s.zones && ranges == s.ranges
    {
      hide Pillars, RangesAfter, Rows, Columns, OnFloor, Criticals;
      placed, zones := [], [];
      var z := 0.0;
      for i := 0 to |floors|
        invariant Progress(placed, zones, z, ranges)
               == AfterFloors(st, old(ranges), input, p, fs[..i], px, width, zone0)
      {
        var f := floors[i];
        SizedFloorAt(st, input, p, fs, i);
        AfterFloorsNext(st, old(ranges), input, p, fs, i, px, width, zone0);
        var depth := Along(f.rows as real, st.spacing);
        var here, critical := PlaceFloor(st, f, px, width, z, zone0 + i);
        var zn := Zone(p, f.floor, px + width / 2.0, z + depth / 2.0, width, depth, |f.devices|, critical);
        assert zn == ZoneAt(Info(p, fs[i], |f.devices|, critical), RectAt(st, px, width, z, |f.devices|));
        placed, zones := placed + here, zones + [zn];
        z := z + (depth + st.zoneGap);
      }
      assert fs[..|floors|] == fs;
    }

    /** Places every plant, one beside the other. */
    method PlacePlants(st: Style, groups: Groups, ghost input: seq<Device>)
      returns (placed: seq<Placed>, zones: seq<Zone>)
      requires st.maxColumns >= 1 && GroupedBy(input, groups)
      modifies `ranges
      ensures var s := AfterPlants(st, old(ranges), input, PlantNames(input));
              placed == s.placed && zones == s.zones && ranges == s.ranges
    {
      hide SortedKeys, Floors, FloorNames, SizesOf, PlantWidth, AfterFloors, SizedFloors, PlantGrouped, Of, Zip;
      var plants := KeysInOrder(groups.Keys);
      var x := 0.0;
      placed, zones := [], [];
      for i := 0 to |plants|
        invariant Progress(placed, zones, x, ranges) == AfterPlants(st, old(ranges), input, plants[..i])
      {
        var p := plants[i];
        assert p in plants;
        assert plants[..i + 1][..i] == plants[..i];
        var floors, width := SizePlant(st, groups[p], input, p);
        var here, zs := PlacePlant(st, floors, p, x, width, |zones|, input, FloorNames(input, p));
        placed, zones := placed + here, zones + zs;
        x := x + (width + st.plantGap);
      }
      assert plants[..|plants|] == plants;
    }

    method Arrange(input: seq<Device>) returns (scene: Scene)
      requires maxColumns >= 1
      modifies `ranges
      ensures scene == SceneOf(St(), old(ranges), input)
      ensures ranges == if input == [] then old(ranges) else RangesAfter(old(ranges), Flat(input))
    {
      hide Pillars, RangesAfter, Rects, Cells, AfterPlants, PlantGrouped, Bounds;
      if input == [] { return Scene([], [], 0.0, 0.0); }
      var st := Style(spacing, zoneGap, plantGap, maxColumns);
      var groups := Group(input);
      var placed, zones := PlacePlants(st, groups, input);
      AfterPlantsInClosedForm(st, old(ranges), input, PlantNames(input));
      scene := Centre(placed, zones, Infos(input), Rects(st, SceneShape(input)));
    }

    /** Shifts everything so that the scene's bounding box is centred on the origin. */
    static method Centre(placed: seq<Placed>, zones: seq<Zone>, ghost infos: seq<Info>, ghost rs: seq<Rect>)
      returns (scene: Scene)
      requires |infos| == |rs| && zones == Zip(infos, rs)
      ensures var b := Bounds(rs);
              scene == Scene(Moved(placed, b), Zip(infos, ShiftRects(rs, b)), b.maxX - b.minX, b.maxZ - b.minZ)
    {
      var b := Box(FAR, -FAR, FAR, -FAR);
      for i := 0 to |zones|
        invariant b == Bounds(rs[..i])
      {
        var z := zones[i];
        assert rs[..i + 1][..i] == rs[..i];
        b := Box(Min(b.minX, z.x - z.width / 2.0), Max(b.maxX, z.x + z.width / 2.0),
                 Min(b.minZ, z.z - z.depth / 2.0), Max(b.maxZ, z.z + z.depth / 2.0));
      }
      assert rs[..|zones|] == rs;
      var cx, cz := (b.minX + b.maxX) / 2.0, (b.minZ + b.maxZ) / 2.0;
      var moved, shifted := [], [];
      for i := 0 to |zones|
        invariant moved == Zip(infos, ShiftRects(rs, b))[..i]
      {
        moved := moved + [zones[i].(x := zones[i].x - cx, z := zones[i].z - cz)];
      }
      for i := 0 to |placed|
        invariant shifted == Moved(placed, b)[..i]
      {
        shifted := shifted + [placed[i].(x := placed[i].x - cx, z := placed[i].z - cz)];
      }
      scene := Scene(shifted, moved, b.maxX - b.minX, b.maxZ - b.minZ);
    }
  }

  lemma PillarsOfNextFloor(st: Style, rs: Ranges, input: seq<Device>, p: string, fs: seq<string>, px: real,
                           width: real, zone0: nat)
    requires st.maxColumns >= 1 && fs != []
    ensures var last := |fs| - 1;
            var before, here, ns := FloorsFlat(input, p, fs[..last]), OnFloor(input, p, fs[last]),
                                    SizesOf(input, p, fs[..last]);
            Pillars(rs, FloorsFlat(input, p, fs), PlantCells(st, px, width, SizesOf(input, p, fs), zone0))
            == Pillars(rs, before, PlantCells(st, px, width, ns, zone0))
               + Pillars(RangesAfter(rs, before), here,
                         FloorCells(st, px, width, ZAfter(st, ns), |here|, zone0 + last))
  {
    hide *;
    var last := |fs| - 1;
    var before, here, ns := FloorsFlat(input, p, fs[..last]), OnFloor(input, p, fs[last]), SizesOf(input, p, fs[..last]);
    var c0, c1 := PlantCells(st, px, width, ns, zone0), FloorCells(st, px, width, ZAfter(st, ns), |here|, zone0 + last);
    assert fs[..last + 1] == fs;
    NamesNext(input, p, fs, last);
    SortKeeps(Of(input, p, fs[last]));
    assert |here| == |Of(input, p, fs[last])| by { OnFloorIsSorted(input, p, fs[last]); }
    ZonesNext(st, px, width, ns, |here|, zone0);
    OneCellPerDevice(st, input, p, fs[..last], px, width, zone0);
    PillarsJoin(rs, before, c0, here, c1);
  }

  lemma OnFloorIsSorted(input: seq<Device>, p: string, f: string)
    ensures OnFloor(input, p, f) == SortDevices(Of(input, p, f))
  {
  }

  lemma ZoneOfNextFloor(st: Style, input: seq<Device>, p: string, fs: seq<string>, px: real, width: real)
    requires st.maxColumns >= 1 && fs != []
    ensures var last := |fs| - 1;
            var here, ns := OnFloor(input, p, fs[last]), SizesOf(input, p, fs[..last]);
            && Zip(FloorInfos(input, p, fs), PlantRects(st, px, width, SizesOf(input, p, fs)))
               == Zip(FloorInfos(input, p, fs[..last]), PlantRects(st, px, width, ns))
                  + [ZoneAt(Info(p, fs[last], |here|, Criticals(here)),
                            RectAt(st, px, width, ZAfter(st, ns), |here|))]
            && ZAfter(st, SizesOf(input, p, fs)) == ZAfter(st, ns) + (Depth(st, |here|) + st.zoneGap)
  {
    var last := |fs| - 1;
    var here, ns := OnFloor(input, p, fs[last]), SizesOf(input, p, fs[..last]);
    SortKeeps(Of(input, p, fs[last]));
    assert SizesOf(input, p, fs) == ns + [|here|];
    ZonesNext(st, px, width, ns, |here|, 0);
    ZipNext(FloorInfos(input, p, fs[..last]), PlantRects(st, px, width, ns), InfoOf(input, p, fs[last]),
            RectAt(st, px, width, ZAfter(st, ns), |here|));
  }

  ghost function FloorsInClosedForm(st: Style, rs: Ranges, input: seq<Device>, p: string, fs: seq<string>, px: real,
                                    width: real, zone0: nat): Progress
    requires st.maxColumns >= 1
  {
    Progress(Pillars(rs, FloorsFlat(input, p, fs), PlantCells(st, px, width, SizesOf(input, p, fs), zone0)),
             Zip(FloorInfos(input, p, fs), PlantRects(st, px, width, SizesOf(input, p, fs))),
             ZAfter(st, SizesOf(input, p, fs)),
             RangesAfter(rs, FloorsFlat(input, p, fs)))
  }

  lemma ClosedFormNext(st: Style, rs: Ranges, input: seq<Device>, p: string, fs: seq<string>, px: real,
                       width: real, zone0: nat)
    requires st.maxColumns >= 1 && fs != []
    ensures var last := |fs| - 1;
            FloorsInClosedForm(st, rs, input, p, fs, px, width, zone0)
            == FloorAdded(st, FloorsInClosedForm(st, rs, input, p, fs[..last], px, width, zone0), p, fs[last],
                          OnFloor(input, p, fs[last]), px, width, zone0 + last)
  {
    var last := |fs| - 1;
    hide Pillars, RangesAfter, Zip, PlantCells, PlantRects, SizesOf, FloorsFlat, FloorInfos, ZAfter, Criticals,
         OnFloor, FloorCells, RectAt, Depth, ZoneAt;
    assert fs[..last + 1] == fs;
    PillarsOfNextFloor(st, rs, input, p, fs, px, width, zone0);
    ZoneOfNextFloor(st, input, p, fs, px, width);
    NamesNext(input, p, fs, last);
    RangesJoin(rs, FloorsFlat(input, p, fs[..last]), OnFloor(input, p, fs[last]));
  }

  /** The floors of a plant, in closed form. */
  lemma {:induction false} AfterFloorsInClosedForm(st: Style, rs: Ranges, input: seq<Device>, p: string,
                                                   fs: seq<string>, px: real, width: real, zone0: nat)
    requires st.maxColumns >= 1
    ensures AfterFloors(st, rs, input, p, fs, px, width, zone0)
         == FloorsInClosedForm(st, rs, input, p, fs, px, width, zone0)
  {
    if fs != [] {
      hide *;
      var last := |fs| - 1;
      assert fs[..last + 1] == fs;
      AfterFloorsInClosedForm(st, rs, input, p, fs[..last], px, width, zone0);
      AfterFloorsNext(st, rs, input, p, fs, last, px, width, zone0);
      ClosedFormNext(st, rs, input, p, fs, px, width, zone0);
    }
  }

  /** The whole scene before centring, in closed form. */
  lemma {:induction false} AfterPlantsInClosedForm(st: Style, rs: Ranges, input: seq<Device>, ps: seq<string>)
    requires st.maxColumns >= 1
    ensures var s, shape := AfterPlants(st, rs, input, ps), ShapeOf(input, ps);
            && s.placed == Pillars(rs, PlantsFlat(input, ps), Cells(st, shape))
            && |PlantInfos(input, ps)| == |Rects(st, shape)|
            && s.zones == Zip(PlantInfos(input, ps), Rects(st, shape))
            && s.at == XAfter(st, shape)
            && s.ranges == RangesAfter(rs, PlantsFlat(input, ps))
  {
    if ps != [] {
      var last := |ps| - 1;
      var p, shape := ps[last], ShapeOf(input, ps[..last]);
      AfterPlantsInClosedForm(st, rs, input, ps[..last]);
      var fs := FloorNames(input, p);
      var ns, before, here := SizesOf(input, p, fs), PlantsFlat(input, ps[..last]), FloorsFlat(input, p, fs);
      var px, width, zone := XAfter(st, shape), PlantWidth(st, ns), |Rects(st, shape)|;
      var c0, c1 := Cells(st, shape), PlantCells(st, px, width, ns, zone);
      AfterFloorsInClosedForm(st, RangesAfter(rs, before), input, p, fs, px, width, zone);
      SceneNext(st, shape, ns);
      assert |before| == |c0| by { OneCellPerSceneDevice(st, input, ps[..last]); }
      assert |here| == |c1| by { OneCellPerDevice(st, input, p, fs, px, width, zone); }
      PillarsJoin(rs, before, c0, here, c1);
      RangesJoin(rs, before, here);
      ZipJoin(PlantInfos(input, ps[..last]), Rects(st, shape), FloorInfos(input, p, fs),
              PlantRects(st, px, width, ns));
    }
  }
}
