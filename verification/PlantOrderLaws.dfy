/** Where exactly the layout puts things: the order and the spacing of zones and devices, and
    what each zone says about the devices in it. */
module PlantOrderLaws {
  import opened KeyOrder
  import opened PlantGeometry
  import opened PlantLayout
  import opened PlantLayoutLaws

  // ---- Counts ----

  /** How many devices of the input stand on the floor. */
  function CountAt(input: seq<Device>, p: string, f: string): nat {
    if input == [] then 0
    else
      var d := input[|input| - 1];
      CountAt(input[..|input| - 1], p, f) + if d.plant == p && d.floor == f then 1 else 0
  }

  /** How many of them are critical. */
  function CriticalAt(input: seq<Device>, p: string, f: string): nat {
    if input == [] then 0
    else
      var d := input[|input| - 1];
      CriticalAt(input[..|input| - 1], p, f) + if d.plant == p && d.floor == f && d.critical then 1 else 0
  }

  predicate Counted(info: Info, input: seq<Device>) {
    info.count == CountAt(input, info.plant, info.floor) && info.critical == CriticalAt(input, info.plant, info.floor)
  }

  lemma {:induction false} OfIsCounted(input: seq<Device>, p: string, f: string)
    ensures |Of(input, p, f)| == CountAt(input, p, f) && Criticals(Of(input, p, f)) == CriticalAt(input, p, f)
  {
    if input != [] {
      var last := |input| - 1;
      OfIsCounted(input[..last], p, f);
      var one := if input[last].plant == p && input[last].floor == f then [input[last]] else [];
      CriticalsConcat(Of(input[..last], p, f), one);
      assert one != [] ==> one[..0] == [];
    }
  }

  lemma InfoIsCounted(input: seq<Device>, p: string, f: string)
    ensures Counted(InfoOf(input, p, f), input)
  {
    OfIsCounted(input, p, f);
    SortKeeps(Of(input, p, f));
    CriticalsOfPermutation(OnFloor(input, p, f), Of(input, p, f));
  }

  lemma {:induction false} FloorsAreCounted(input: seq<Device>, p: string, fs: seq<string>, k: nat)
    requires k < |fs|
    ensures Counted(FloorInfos(input, p, fs)[k], input)
  {
    hide Counted, InfoOf;
    var last := |fs| - 1;
    if k < last { FloorsAreCounted(input, p, fs[..last], k); } else { InfoIsCounted(input, p, fs[last]); }
  }

  lemma {:induction false} PlantsAreCounted(input: seq<Device>, ps: seq<string>, k: nat)
    requires k < |PlantInfos(input, ps)|
    ensures Counted(PlantInfos(input, ps)[k], input)
  {
    hide Counted, FloorInfos;
    var last := |ps| - 1;
    var before := PlantInfos(input, ps[..last]);
    if k < |before| {
      PlantsAreCounted(input, ps[..last], k);
    } else {
      FloorsAreCounted(input, ps[last], FloorNames(input, ps[last]), k - |before|);
    }
  }

  /** Every zone says how many devices of its plant and floor there are, and how many of them
      are critical. */
  lemma ZonesCountTheirDevices(st: Style, rs: Ranges, input: seq<Device>, k: nat)
    requires st.maxColumns >= 1 && input != [] && k < |SceneOf(st, rs, input).zones|
    ensures var z := SceneOf(st, rs, input).zones[k];
            z.count == CountAt(input, z.plant, z.floor) && z.critical == CriticalAt(input, z.plant, z.floor)
  {
    ZoneParts(st, rs, input, k);
    hide SceneOf, PlantInfos, CountAt, CriticalAt;
    PlantsAreCounted(input, PlantNames(input), k);
  }

  // ---- The order and spacing of the zones ----

  /** The next zone of the same plant has the next floor's name and lies below, at the gap
      between zones and just as wide; the first zone of the next plant has a later plant's
      name and lies to the right, at the gap between plants, at the top. */
  predicate Follows(st: Style, a: Info, ra: Rect, b: Info, rb: Rect) {
    if a.plant == b.plant then
      Less(a.floor, b.floor) && rb.x == ra.x && rb.width == ra.width && Top(rb) == Bottom(ra) + st.zoneGap
    else
      Less(a.plant, b.plant) && Left(rb) == Right(ra) + st.plantGap && Top(rb) == 0.0
  }

  ghost predicate Stacked(st: Style, infos: seq<Info>, rs: seq<Rect>) {
    && |infos| == |rs|
    && forall k | 0 <= k < |rs| - 1 :: Follows(st, infos[k], rs[k], infos[k + 1], rs[k + 1])
  }

  lemma {:induction false} PlantRectAt(st: Style, px: real, width: real, ns: Sizes, k: nat)
    requires st.maxColumns >= 1 && k < |ns|
    ensures PlantRects(st, px, width, ns)[k] == RectAt(st, px, width, ZAfter(st, ns[..k]), ns[k])
  {
    hide RectAt;
    var last := |ns| - 1;
    if k < last {
      PlantRectAt(st, px, width, ns[..last], k);
      assert ns[..last][..k] == ns[..k];
    }
  }

  lemma FloorsFollow(st: Style, input: seq<Device>, p: string, fs: seq<string>, px: real, width: real, k: nat)
    requires st.maxColumns >= 1 && Ascending(Less, fs) && k + 1 < |fs|
    ensures var rs := PlantRects(st, px, width, SizesOf(input, p, fs));
            Follows(st, FloorInfos(input, p, fs)[k], rs[k], FloorInfos(input, p, fs)[k + 1], rs[k + 1])
  {
    var ns := SizesOf(input, p, fs);
    FloorInfoAt(input, p, fs, k);
    FloorInfoAt(input, p, fs, k + 1);
    PlantRectAt(st, px, width, ns, k);
    PlantRectAt(st, px, width, ns, k + 1);
    assert ns[..k + 1][..k] == ns[..k];
    hide Depth, PlantRects, FloorInfos, SizesOf;
    assert ZAfter(st, ns[..k + 1]) == ZAfter(st, ns[..k]) + (Depth(st, ns[k]) + st.zoneGap);
  }

  /** The zones of one plant: stacked, from the top at its left border on. */
  lemma PlantStacked(st: Style, input: seq<Device>, p: string, fs: seq<string>, px: real, width: real)
    requires st.maxColumns >= 1 && Ascending(Less, fs) && fs != []
    ensures var rs, infos := PlantRects(st, px, width, SizesOf(input, p, fs)), FloorInfos(input, p, fs);
            && Stacked(st, infos, rs) && rs != []
            && Top(rs[0]) == 0.0 && Left(rs[0]) == px && Right(rs[|rs| - 1]) == px + width
            && infos[0].plant == p && infos[|infos| - 1].plant == p
  {
    hide Follows;
    var ns := SizesOf(input, p, fs);
    forall k | 0 <= k < |fs| - 1
      ensures var rs := PlantRects(st, px, width, ns);
              Follows(st, FloorInfos(input, p, fs)[k], rs[k], FloorInfos(input, p, fs)[k + 1], rs[k + 1])
    {
      FloorsFollow(st, input, p, fs, px, width, k);
    }
    PlantRectAt(st, px, width, ns, 0);
    PlantRectAt(st, px, width, ns, |ns| - 1);
    FloorInfoAt(input, p, fs, 0);
    FloorInfoAt(input, p, fs, |fs| - 1);
    assert ns[..0] == [];
  }

  /** Stacked zones that begin in the top left corner and end, in the plant `p`, so that the
      next plant goes to `x`. */
  ghost predicate StackedTo(st: Style, infos: seq<Info>, rs: seq<Rect>, p: string, x: real) {
    && Stacked(st, infos, rs) && rs != []
    && Top(rs[0]) == 0.0 && Left(rs[0]) == 0.0
    && infos[|infos| - 1].plant == p && Right(rs[|rs| - 1]) + st.plantGap == x
  }

  lemma OnePlantMore(st: Style, i1: seq<Info>, r1: seq<Rect>, p: string, x: real, i2: seq<Info>, r2: seq<Rect>, q: string,
                     width: real)
    requires StackedTo(st, i1, r1, p, x) && Less(p, q)
    requires Stacked(st, i2, r2) && r2 != [] && Top(r2[0]) == 0.0 && Left(r2[0]) == x && Right(r2[|r2| - 1]) == x + width
    requires i2[0].plant == q && i2[|i2| - 1].plant == q
    ensures StackedTo(st, i1 + i2, r1 + r2, q, x + (width + st.plantGap))
  {
    LessTotal(p, q);
    assert Follows(st, i1[|i1| - 1], r1[|r1| - 1], i2[0], r2[0]);
    hide Follows;
  }

  lemma FirstPlant(st: Style, input: seq<Device>, p: string)
    requires st.maxColumns >= 1 && FloorNames(input, p) != []
    ensures StackedTo(st, PlantInfos(input, [p]), Rects(st, ShapeOf(input, [p])), p, XAfter(st, ShapeOf(input, [p])))
  {
    var fs := FloorNames(input, p);
    var ns := SizesOf(input, p, fs);
    PlantStacked(st, input, p, fs, 0.0, PlantWidth(st, ns));
    assert [p][..0] == [];
    hide PlantRects, FloorInfos, SizesOf, PlantWidth, FloorNames, Stacked;
    assert PlantInfos(input, [p]) == [] + FloorInfos(input, p, fs);
    assert ShapeOf(input, [p]) == [] + [ns];
    SceneNext(st, [], ns);
    assert Rects(st, []) == [] && XAfter(st, []) == 0.0;
  }

  lemma {:induction false} PlantsStacked(st: Style, input: seq<Device>, ps: seq<string>)
    requires st.maxColumns >= 1 && Ascending(Less, ps) && ps != [] && forall p | p in ps :: FloorNames(input, p) != []
    ensures StackedTo(st, PlantInfos(input, ps), Rects(st, ShapeOf(input, ps)), ps[|ps| - 1], XAfter(st, ShapeOf(input, ps)))
  {
    var last := |ps| - 1;
    assert ps[last] in ps;
    if last == 0 {
      FirstPlant(st, input, ps[0]);
      assert ps == [ps[0]];
    } else {
      var before, p := ps[..last], ps[last];
      var shape, fs := ShapeOf(input, before), FloorNames(input, p);
      var ns := SizesOf(input, p, fs);
      PlantsStacked(st, input, before);
      assert PlantInfos(input, ps) == PlantInfos(input, before) + FloorInfos(input, p, fs);
      assert ShapeOf(input, ps) == shape + [ns];
      assert Less(ps[last - 1], p) && before[|before| - 1] == ps[last - 1];
      hide *;
      SceneNext(st, shape, ns);
      PlantStacked(st, input, p, fs, XAfter(st, shape), PlantWidth(st, ns));
      OnePlantMore(st, PlantInfos(input, before), Rects(st, shape), ps[last - 1], XAfter(st, shape), FloorInfos(input, p, fs),
                   PlantRects(st, XAfter(st, shape), PlantWidth(st, ns), ns), p, PlantWidth(st, ns));
    }
  }

  /** The zones of a scene run through the plants and, in each plant, through its floors, in
      ascending order of the names: floors below one another at the gap between zones, plants
      beside one another at the gap between plants. */
  predicate ZoneFollows(st: Style, first: Zone, a: Zone, b: Zone) {
    if a.plant == b.plant then
      && Less(a.floor, b.floor) && b.x == a.x && b.width == a.width
      && b.z - b.depth / 2.0 == a.z + a.depth / 2.0 + st.zoneGap
    else
      && Less(a.plant, b.plant)
      && b.x - b.width / 2.0 == a.x + a.width / 2.0 + st.plantGap
      && b.z - b.depth / 2.0 == first.z - first.depth / 2.0
  }

  lemma ZonesFollowOneAnother(st: Style, rs: Ranges, input: seq<Device>, k: nat)
    requires st.maxColumns >= 1 && input != [] && k + 1 < |SceneOf(st, rs, input).zones|
    ensures var zones := SceneOf(st, rs, input).zones; ZoneFollows(st, zones[0], zones[k], zones[k + 1])
  {
    ZoneParts(st, rs, input, 0);
    ZoneParts(st, rs, input, k);
    ZoneParts(st, rs, input, k + 1);
    SceneStacked(st, input);
    hide *;
    var infos, r := Infos(input), Rects(st, SceneShape(input));
    ShiftKeepsOrder(st, Bounds(r), infos[0], r[0], infos[k], r[k], infos[k + 1], r[k + 1]);
  }

  lemma SceneStacked(st: Style, input: seq<Device>)
    requires st.maxColumns >= 1 && input != []
    ensures var infos, rs := Infos(input), Rects(st, SceneShape(input));
            && |infos| == |rs| && rs != [] && Top(rs[0]) == 0.0
            && forall k | 0 <= k < |rs| - 1 :: Follows(st, infos[k], rs[k], infos[k + 1], rs[k + 1])
  {
    assert input[0].plant in Plants(input);
    assert input[0].plant in PlantNames(input);
    forall p | p in PlantNames(input) ensures FloorNames(input, p) != [] { FloorsExist(input, p); }
    hide PlantInfos, Rects, ShapeOf, FloorNames, Follows, XAfter;
    PlantsStacked(st, input, PlantNames(input));
  }

  lemma ShiftKeepsOrder(st: Style, box: Box, i0: Info, r0: Rect, ia: Info, ra: Rect, ib: Info, rb: Rect)
    requires Follows(st, ia, ra, ib, rb) && Top(r0) == 0.0
    ensures ZoneFollows(st, ZoneAt(i0, ShiftRect(r0, box)), ZoneAt(ia, ShiftRect(ra, box)), ZoneAt(ib, ShiftRect(rb, box)))
  {
    hide MiddleX, MiddleZ, Less;
  }

  /** A plant is just as wide as the grid of one of its floors, and no floor's grid is wider. */
  lemma {:induction false} WidthIsTheWidest(st: Style, ns: Sizes) returns (k: nat)
    requires Sane(st) && ns != []
    ensures k < |ns| && PlantWidth(st, ns) == GridWidth(st, ns[k])
    ensures forall i | 0 <= i < |ns| :: GridWidth(st, ns[i]) <= PlantWidth(st, ns)
  {
    var last := |ns| - 1;
    k := last;
    GridHasWidth(st, ns[last]);
    if last > 0 {
      var before := WidthIsTheWidest(st, ns[..last]);
      if GridWidth(st, ns[last]) < PlantWidth(st, ns[..last]) { k := before; }
    } else {
      assert ns[..last] == [];
    }
    hide GridWidth;
    forall i | 0 <= i < |ns| ensures GridWidth(st, ns[i]) <= PlantWidth(st, ns) { WidthCoversGrid(st, ns, i); }
  }

  lemma GridHasWidth(st: Style, n: nat)
    requires Sane(st)
    ensures GridWidth(st, n) > 0.0
  {
    Scaled(1.0, Columns(st, n) as real, st.spacing);
  }

  /** A floor has just as many rows as its devices need. */
  lemma RowsAreLeast(n: nat, cols: int)
    requires n >= 1 && cols >= 1
    ensures (RowsFor(n, cols) - 1) * cols < n <= RowsFor(n, cols) * cols
  {
  }

  // ---- The order and spacing of the devices on a floor ----

  /** The devices of a floor stand in reading order: the first in the top left corner of the
      grid, which is centred in the zone; each next one a step to the right or, after the last
      column, at the left again one step below. */
  lemma CellsInReadingOrder(st: Style, px: real, width: real, z: real, n: nat, zone: nat, i: nat)
    requires st.maxColumns >= 1 && i < n
    ensures var cs, cols := FloorCells(st, px, width, z, n, zone), Columns(st, n);
            && cs[i].zone == zone
            && cs[0].x == px + width / 2.0 - (cols as real * st.spacing) / 2.0 + st.spacing / 2.0
            && cs[0].z == z + st.spacing / 2.0
            && (i + 1 < n ==>
                  if (i + 1) % cols == 0 then cs[i + 1].x == cs[0].x && cs[i + 1].z == cs[i].z + st.spacing
                  else cs[i + 1].x == cs[i].x + st.spacing && cs[i + 1].z == cs[i].z)
  {
    var cols := Columns(st, n);
    assert cols >= 1;
    NextSlot(i, cols);
    StepAlong(i % cols, st.spacing);
    StepAlong(i / cols, st.spacing);
    assert 0 % cols == 0 && 0 / cols == 0;
    assert Along(0.5, st.spacing) == st.spacing / 2.0;
  }

  lemma NextSlot(i: nat, cols: int)
    requires cols >= 1
    ensures if (i + 1) % cols == 0 then (i + 1) / cols == i / cols + 1
            else (i + 1) / cols == i / cols && (i + 1) % cols == i % cols + 1
  {
    var q, r := i / cols, i % cols;
    assert i + 1 == q * cols + (r + 1);
    if r + 1 == cols {
      assert i + 1 == (q + 1) * cols + 0;
      Divided(i + 1, q + 1, 0, cols);
    } else {
      Divided(i + 1, q, r + 1, cols);
    }
  }

  lemma Divided(x: int, q: int, r: int, n: int)
    requires n > 0 && x == q * n + r && 0 <= r < n
    ensures x / n == q && x % n == r
  {
    var p := x / n;
    assert x == p * n + x % n;
    assert (p - q) * n == r - x % n;
    assert p - q >= 1 ==> (p - q) * n >= n;
    assert p - q <= -1 ==> (p - q) * n <= -n;
  }

  lemma StepAlong(k: int, s: real)
    ensures Along((k + 1) as real + 0.5, s) == Along(k as real + 0.5, s) + s
  {
    assert (k as real + 1.5) * s == (k as real + 0.5) * s + s;
  }

  /** The devices of a floor are in ascending order of id and then of sensor. */
  lemma FloorIsSorted(input: seq<Device>, p: string, f: string, i: nat, j: nat)
    requires DistinctKeys(input) && i < j < |OnFloor(input, p, f)|
    ensures var a, b := OnFloor(input, p, f)[i], OnFloor(input, p, f)[j];
            Less(a.id, b.id) || (a.id == b.id && Less(a.sensor, b.sensor))
  {
    FloorKeys(input, p, f);
    var ks := Keys(OnFloor(input, p, f));
    assert KeyLess(ks[i], ks[j]);
  }
}
