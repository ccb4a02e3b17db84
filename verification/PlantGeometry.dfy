/** The geometry of the 3D plant view: plants side by side along x, the floors of a plant
    stacked along z, the devices of a floor on a grid.

    Everything here depends on one thing only, the shape of the input: how many devices
    each floor of each plant has. */
module PlantGeometry {

  datatype Style = Style(spacing: real, zoneGap: real, plantGap: real, maxColumns: int)

  /** What the layout needs of its settings; the defaults satisfy it. */
  predicate Sane(st: Style) {
    st.spacing > 0.0 && st.zoneGap >= 0.0 && st.plantGap >= 0.0 && st.maxColumns >= 1
  }

  datatype Rect = Rect(x: real, z: real, width: real, depth: real)

  datatype Cell = Cell(x: real, z: real, zone: nat)

  type Sizes = seq<nat>

  type Shape = seq<Sizes>

  predicate Populated(ns: Sizes) { forall i | 0 <= i < |ns| :: ns[i] >= 1 }

  predicate AllPopulated(shape: Shape) {
    forall i | 0 <= i < |shape| :: shape[i] != [] && Populated(shape[i])
  }

  lemma SquareGrows(c: nat)
    ensures 5 * c * c < 5 * (c + 1) * (c + 1)
  {
  }

  /** ceil(sqrt(1.6 n)): the least c with 5 c^2 >= 8 n, searched from `c` upwards. */
  function CeilRoot(n: nat, c: nat): nat
    decreases 8 * n - 5 * c * c
  {
    if 5 * c * c >= 8 * n then c
    else
      SquareGrows(c);
      CeilRoot(n, c + 1)
  }

  lemma {:induction false} CeilRootIsLeast(n: nat, c: nat)
    ensures var r := CeilRoot(n, c);
            r >= c && 5 * r * r >= 8 * n && forall k | c <= k < r :: 5 * k * k < 8 * n
    decreases 8 * n - 5 * c * c
  {
    if 5 * c * c < 8 * n {
      SquareGrows(c);
      CeilRootIsLeast(n, c + 1);
    }
  }

  function Columns(st: Style, n: nat): (c: int)
    ensures st.maxColumns >= 1 ==> 1 <= c <= st.maxColumns
  {
    var c := CeilRoot(n, 0);
    if c < 1 then 1 else if c > st.maxColumns then st.maxColumns else c
  }

  predicate Enough(n: nat, c: int) { 5 * c * c >= 8 * n }

  lemma EnoughStays(n: nat, c: int, d: int)
    requires Enough(n, c) && 0 <= c <= d
    ensures Enough(n, d)
  {
    assert c * c <= d * d by { assert (d - c) * (d + c) >= 0; }
  }

  /** The column count is the least allowed one that suits the number of devices, or the
      most that is allowed. */
  lemma ColumnsAreLeast(st: Style, n: nat)
    requires st.maxColumns >= 1
    ensures var c := Columns(st, n);
            && 1 <= c <= st.maxColumns
            && (Enough(n, c) || c == st.maxColumns)
            && forall k | 1 <= k < c :: !Enough(n, k)
  {
    CeilRootIsLeast(n, 0);
    var r := CeilRoot(n, 0);
    if r < 1 { EnoughStays(n, r, 1); }
    forall k | 1 <= k < Columns(st, n) ensures !Enough(n, k) { assert k < r; }
  }

  function RowsFor(n: nat, columns: int): int
    requires columns >= 1
  {
    (n + columns - 1) / columns
  }

  function Rows(st: Style, n: nat): int
    requires st.maxColumns >= 1
  {
    RowsFor(n, Columns(st, n))
  }

  /** The length of `k` grid steps. */
  function Along(k: real, spacing: real): real { k * spacing }

  function GridWidth(st: Style, n: nat): real { Along(Columns(st, n) as real, st.spacing) }

  function Depth(st: Style, n: nat): real
    requires st.maxColumns >= 1
  {
    Along(Rows(st, n) as real, st.spacing)
  }

  function Max(a: real, b: real): real { if a < b then b else a }

  function Min(a: real, b: real): real { if b < a then b else a }

  /** A plant is as wide as its widest floor. */
  function PlantWidth(st: Style, ns: Sizes): real {
    if ns == [] then 0.0
    else Max(PlantWidth(st, ns[..|ns| - 1]), GridWidth(st, ns[|ns| - 1]))
  }

  /** Where the next plant begins along x. */
  function XAfter(st: Style, shape: Shape): real {
    if shape == [] then 0.0
    else XAfter(st, shape[..|shape| - 1]) + (PlantWidth(st, shape[|shape| - 1]) + st.plantGap)
  }

  /** Where the next floor of a plant begins along z. */
  function ZAfter(st: Style, ns: Sizes): real
    requires st.maxColumns >= 1
  {
    if ns == [] then 0.0
    else ZAfter(st, ns[..|ns| - 1]) + (Depth(st, ns[|ns| - 1]) + st.zoneGap)
  }

  function RectAt(st: Style, px: real, width: real, z: real, n: nat): Rect
    requires st.maxColumns >= 1
  {
    Rect(px + width / 2.0, z + Depth(st, n) / 2.0, width, Depth(st, n))
  }

  function GridCell(spacing: real, px: real, width: real, z: real, cols: int, i: nat, zone: nat): Cell
    requires cols >= 1
  {
    Cell(px + width / 2.0 - Along(cols as real, spacing) / 2.0 + Along((i % cols) as real + 0.5, spacing),
         z + Along((i / cols) as real + 0.5, spacing),
         zone)
  }

  function CellAt(st: Style, px: real, width: real, z: real, n: nat, i: nat, zone: nat): Cell
    requires st.maxColumns >= 1
  {
    GridCell(st.spacing, px, width, z, Columns(st, n), i, zone)
  }

  function FloorCells(st: Style, px: real, width: real, z: real, n: nat, zone: nat): (r: seq<Cell>)
    requires st.maxColumns >= 1
    ensures |r| == n
  {
    seq(n, i requires 0 <= i < n => CellAt(st, px, width, z, n, i, zone))
  }

  function PlantRects(st: Style, px: real, width: real, ns: Sizes): (r: seq<Rect>)
    requires st.maxColumns >= 1
    ensures |r| == |ns|
  {
    if ns == [] then []
    else
      var last := |ns| - 1;
      PlantRects(st, px, width, ns[..last]) + [RectAt(st, px, width, ZAfter(st, ns[..last]), ns[last])]
  }

  function PlantCells(st: Style, px: real, width: real, ns: Sizes, zone: nat): seq<Cell>
    requires st.maxColumns >= 1
  {
    if ns == [] then []
    else
      var last := |ns| - 1;
      PlantCells(st, px, width, ns[..last], zone)
      + FloorCells(st, px, width, ZAfter(st, ns[..last]), ns[last], zone + last)
  }

  function Rects(st: Style, shape: Shape): seq<Rect>
    requires st.maxColumns >= 1
  {
    if shape == [] then []
    else
      var last := |shape| - 1;
      Rects(st, shape[..last]) + PlantRects(st, XAfter(st, shape[..last]), PlantWidth(st, shape[last]), shape[last])
  }

  function Cells(st: Style, shape: Shape): seq<Cell>
    requires st.maxColumns >= 1
  {
    if shape == [] then []
    else
      var last := |shape| - 1;
      Cells(st, shape[..last])
      + PlantCells(st, XAfter(st, shape[..last]), PlantWidth(st, shape[last]), shape[last],
                   |Rects(st, shape[..last])|)
  }

  // ---- Separation ----

  function Left(r: Rect): real { r.x - r.width / 2.0 }
  function Right(r: Rect): real { r.x + r.width / 2.0 }
  function Top(r: Rect): real { r.z - r.depth / 2.0 }
  function Bottom(r: Rect): real { r.z + r.depth / 2.0 }

  function Abs(a: real): real { if a < 0.0 then -a else a }

  /** Inside the zone, at least half a grid step away from its border. */
  predicate Inside(st: Style, c: Cell, r: Rect) {
    && Left(r) + st.spacing / 2.0 <= c.x <= Right(r) - st.spacing / 2.0
    && Top(r) + st.spacing / 2.0 <= c.z <= Bottom(r) - st.spacing / 2.0
  }

  /** `b` lies beyond `a` along x or along z, with the gap the settings ask for. */
  predicate Beyond(st: Style, a: Rect, b: Rect) {
    Right(a) + st.plantGap <= Left(b) || Bottom(a) + st.zoneGap <= Top(b)
  }

  predicate Apart(st: Style, a: Cell, b: Cell) {
    Abs(a.x - b.x) >= st.spacing || Abs(a.z - b.z) >= st.spacing
  }

  predicate RectsApart(st: Style, rs: seq<Rect>) {
    forall i, j | 0 <= i < j < |rs| :: Beyond(st, rs[i], rs[j])
  }

  predicate CellsApart(st: Style, cs: seq<Cell>) {
    forall i, j | 0 <= i < j < |cs| :: Apart(st, cs[i], cs[j])
  }

  predicate CellsInside(st: Style, cs: seq<Cell>, rs: seq<Rect>) {
    forall i | 0 <= i < |cs| :: cs[i].zone < |rs| && Inside(st, cs[i], rs[cs[i].zone])
  }

  lemma Scaled(a: real, b: real, s: real)
    requires a <= b && s >= 0.0
    ensures a * s <= b * s
  {
  }

  lemma WidthCoversGrid(st: Style, ns: Sizes, i: nat)
    requires i < |ns|
    ensures GridWidth(st, ns[i]) <= PlantWidth(st, ns)
  {
    if i < |ns| - 1 { WidthCoversGrid(st, ns[..|ns| - 1], i); }
  }

  lemma RowBound(n: nat, cols: int, i: int)
    requires cols >= 1 && 0 <= i < n
    ensures 0 <= i / cols <= RowsFor(n, cols) - 1 && 0 <= i % cols <= cols - 1
  {
    var rows := RowsFor(n, cols);
    var row := i / cols;
    assert rows * cols >= n && row * cols <= i;
    assert row < rows by { Cancels(row, rows, cols); }
  }

  lemma Cancels(a: int, b: int, c: int)
    requires c >= 1 && a * c < b * c
    ensures a < b
  {
  }

  /** The centre of grid step `k` of `m` is half a step inside the grid. */
  lemma StepCentre(k: int, m: int, s: real)
    requires 0 <= k <= m - 1 && s >= 0.0
    ensures s / 2.0 <= Along(k as real + 0.5, s) <= Along(m as real, s) - s / 2.0
  {
    Scaled(0.5, k as real + 0.5, s);
    Scaled(k as real + 0.5, m as real - 0.5, s);
    assert (m as real - 0.5) * s == m as real * s - s / 2.0;
  }

  lemma GridCellInside(st: Style, px: real, width: real, z: real, cols: int, n: nat, i: nat, zone: nat)
    requires Sane(st) && i < n && cols >= 1 && Along(cols as real, st.spacing) <= width
    ensures var rows := RowsFor(n, cols);
            Inside(st, GridCell(st.spacing, px, width, z, cols, i, zone),
                   Rect(px + width / 2.0, z + Along(rows as real, st.spacing) / 2.0, width, Along(rows as real, st.spacing)))
  {
    RowBound(n, cols, i);
    SlotInside(st, px, width, z, cols, RowsFor(n, cols), i % cols, i / cols, zone);
  }

  lemma SlotInside(st: Style, px: real, width: real, z: real, cols: int, rows: int, col: int, row: int, zone: nat)
    requires Sane(st) && 0 <= col <= cols - 1 && 0 <= row <= rows - 1 && Along(cols as real, st.spacing) <= width
    ensures Inside(st, Cell(px + width / 2.0 - Along(cols as real, st.spacing) / 2.0 + Along(col as real + 0.5, st.spacing),
                            z + Along(row as real + 0.5, st.spacing), zone),
                   Rect(px + width / 2.0, z + Along(rows as real, st.spacing) / 2.0, width, Along(rows as real, st.spacing)))
  {
    var s := st.spacing;
    StepCentre(col, cols, s);
    StepCentre(row, rows, s);
    InsideByOffsets(st, px, width, z, Along(cols as real, s), Along(rows as real, s),
                    Along(col as real + 0.5, s), Along(row as real + 0.5, s), zone);
  }

  lemma CellInside(st: Style, px: real, width: real, z: real, n: nat, i: nat, zone: nat)
    requires Sane(st) && i < n && GridWidth(st, n) <= width
    ensures Inside(st, CellAt(st, px, width, z, n, i, zone), RectAt(st, px, width, z, n))
  {
    GridCellInside(st, px, width, z, Columns(st, n), n, i, zone);
  }

  lemma InsideByOffsets(st: Style, px: real, width: real, z: real, w: real, d: real, dx: real, dz: real, zone: nat)
    requires st.spacing / 2.0 <= dx <= w - st.spacing / 2.0 && w <= width
    requires st.spacing / 2.0 <= dz <= d - st.spacing / 2.0
    ensures Inside(st, Cell(px + width / 2.0 - w / 2.0 + dx, z + dz, zone),
                   Rect(px + width / 2.0, z + d / 2.0, width, d))
  {
  }

  lemma StepsApart(a: int, b: int, s: real)
    requires a != b && s > 0.0
    ensures Abs(Along(a as real + 0.5, s) - Along(b as real + 0.5, s)) >= s
  {
    var ra, rb := a as real + 0.5, b as real + 0.5;
    if ra - rb >= 1.0 { AlongGrows(rb, ra, s); } else { AlongGrows(ra, rb, s); }
  }

  lemma AlongGrows(a: real, b: real, s: real)
    requires a + 1.0 <= b && s > 0.0
    ensures Along(a, s) + s <= Along(b, s)
  {
    Scaled(a + 1.0, b, s);
    assert (a + 1.0) * s == a * s + s;
  }

  lemma GridCellsApart(st: Style, px: real, width: real, z: real, cols: int, i: nat, j: nat, zone: nat)
    requires Sane(st) && cols >= 1 && i != j
    ensures Apart(st, GridCell(st.spacing, px, width, z, cols, i, zone),
                  GridCell(st.spacing, px, width, z, cols, j, zone))
  {
    var ci, cj, ri, rj, s := i % cols, j % cols, i / cols, j / cols, st.spacing;
    if ci != cj { StepsApart(ci, cj, s); } else { SameColumn(i, j, cols); StepsApart(ri, rj, s); }
    ApartByOffsets(st, px + width / 2.0 - Along(cols as real, s) / 2.0, z,
                   Along(ci as real + 0.5, s), Along(ri as real + 0.5, s),
                   Along(cj as real + 0.5, s), Along(rj as real + 0.5, s), zone);
  }

  lemma CellsOfFloorApart(st: Style, px: real, width: real, z: real, n: nat, i: nat, j: nat, zone: nat)
    requires Sane(st) && i < n && j < n && i != j
    ensures Apart(st, CellAt(st, px, width, z, n, i, zone), CellAt(st, px, width, z, n, j, zone))
  {
    GridCellsApart(st, px, width, z, Columns(st, n), i, j, zone);
  }

  lemma ApartByOffsets(st: Style, x: real, z: real, xi: real, zi: real, xj: real, zj: real, zone: nat)
    requires Abs(xi - xj) >= st.spacing || Abs(zi - zj) >= st.spacing
    ensures Apart(st, Cell(x + xi, z + zi, zone), Cell(x + xj, z + zj, zone))
  {
  }

  lemma SameColumn(i: nat, j: nat, cols: int)
    requires cols >= 1 && i != j && i % cols == j % cols
    ensures i / cols != j / cols
  {
    assert i == (i / cols) * cols + i % cols && j == (j / cols) * cols + j % cols;
  }

  /** Cells of zones that are beyond one another are a whole step apart. */
  lemma ZonesKeepCellsApart(st: Style, a: Cell, ra: Rect, b: Cell, rb: Rect)
    requires Sane(st) && Inside(st, a, ra) && Inside(st, b, rb) && Beyond(st, ra, rb)
    ensures Apart(st, a, b)
  {
  }

  lemma DepthPositive(st: Style, n: nat)
    requires Sane(st) && n >= 1
    ensures Depth(st, n) >= st.spacing && GridWidth(st, n) >= st.spacing
  {
    RowBound(n, Columns(st, n), 0);
    Scaled(1.0, Rows(st, n) as real, st.spacing);
    Scaled(1.0, Columns(st, n) as real, st.spacing);
  }

  /** The zones of one plant lie in its column and are stacked upwards in z. */
  lemma {:induction false} PlantZones(st: Style, px: real, width: real, ns: Sizes)
    requires Sane(st) && Populated(ns)
    ensures var rs := PlantRects(st, px, width, ns);
            && RectsApart(st, rs)
            && ZAfter(st, ns) >= 0.0
            && (forall i | 0 <= i < |rs| :: Left(rs[i]) == px && Right(rs[i]) == px + width)
            && (forall i | 0 <= i < |rs| :: 0.0 <= Top(rs[i]) < Bottom(rs[i]) <= ZAfter(st, ns) - st.zoneGap)
            && (rs != [] ==> Top(rs[0]) == 0.0)
  {
    if ns != [] {
      var last := |ns| - 1;
      PlantZones(st, px, width, ns[..last]);
      DepthPositive(st, ns[last]);
    }
  }

  lemma {:induction false} PlantCellsPlaced(st: Style, px: real, width: real, ns: Sizes, zone: nat)
    requires Sane(st) && Populated(ns)
    requires forall i | 0 <= i < |ns| :: GridWidth(st, ns[i]) <= width
    ensures var cs, rs := PlantCells(st, px, width, ns, zone), PlantRects(st, px, width, ns);
            && CellsApart(st, cs)
            && forall i | 0 <= i < |cs| ::
                 zone <= cs[i].zone < zone + |rs| && Inside(st, cs[i], rs[cs[i].zone - zone])
  {
    if ns != [] {
      var last := |ns| - 1;
      var z := ZAfter(st, ns[..last]);
      var rs := PlantRects(st, px, width, ns);
      var before, floor := PlantCells(st, px, width, ns[..last], zone),
                           FloorCells(st, px, width, z, ns[last], zone + last);
      var cs := PlantCells(st, px, width, ns, zone);
      PlantCellsPlaced(st, px, width, ns[..last], zone);
      PlantZones(st, px, width, ns);
      forall i | 0 <= i < |floor| ensures Inside(st, floor[i], rs[last]) {
        CellInside(st, px, width, z, ns[last], i, zone + last);
      }
      forall i, j | 0 <= i < j < |cs| ensures Apart(st, cs[i], cs[j]) {
        if i >= |before| {
          CellsOfFloorApart(st, px, width, z, ns[last], i - |before|, j - |before|, zone + last);
        } else if j >= |before| {
          ZonesKeepCellsApart(st, cs[i], rs[before[i].zone - zone], cs[j], rs[last]);
        }
      }
    }
  }

  lemma WidthPositive(st: Style, ns: Sizes)
    requires Sane(st) && ns != [] && Populated(ns)
    ensures PlantWidth(st, ns) >= st.spacing
  {
    WidthCoversGrid(st, ns, 0);
    DepthPositive(st, ns[0]);
  }

  lemma {:induction false} XAfterNonNegative(st: Style, shape: Shape)
    requires Sane(st) && AllPopulated(shape)
    ensures XAfter(st, shape) >= 0.0
  {
    if shape != [] {
      XAfterNonNegative(st, shape[..|shape| - 1]);
      WidthPositive(st, shape[|shape| - 1]);
    }
  }

  /** Zones never overlap: of any two, one lies beyond the other. */
  lemma {:induction false} ZonesDisjoint(st: Style, shape: Shape)
    requires Sane(st) && AllPopulated(shape)
    ensures var rs := Rects(st, shape);
            && RectsApart(st, rs)
            && (forall i | 0 <= i < |rs| :: 0.0 <= Left(rs[i]) < Right(rs[i]) <= XAfter(st, shape) - st.plantGap)
            && (forall i | 0 <= i < |rs| :: 0.0 <= Top(rs[i]) < Bottom(rs[i]))
            && (shape != [] ==> rs != [] && Left(rs[0]) == 0.0 && Top(rs[0]) == 0.0)
  {
    if shape != [] {
      var last := |shape| - 1;
      var px, width := XAfter(st, shape[..last]), PlantWidth(st, shape[last]);
      ZonesDisjoint(st, shape[..last]);
      XAfterNonNegative(st, shape[..last]);
      PlantZones(st, px, width, shape[last]);
      WidthPositive(st, shape[last]);
      RectsConcat(st, Rects(st, shape[..last]), PlantRects(st, px, width, shape[last]), px, width);
      hide PlantRects, PlantWidth, RectsApart, Left, Right, Top, Bottom;
      assert Rects(st, shape) == Rects(st, shape[..last]) + PlantRects(st, px, width, shape[last]);
      assert XAfter(st, shape) - st.plantGap == px + width;
      assert last == 0 ==> shape[..last] == [];
    }
  }

  lemma RectsConcat(st: Style, r0: seq<Rect>, r1: seq<Rect>, px: real, width: real)
    requires Sane(st) && px >= 0.0 && width > 0.0 && RectsApart(st, r0) && RectsApart(st, r1)
    requires forall i | 0 <= i < |r0| :: 0.0 <= Left(r0[i]) < Right(r0[i]) <= px - st.plantGap
    requires forall i | 0 <= i < |r0| :: 0.0 <= Top(r0[i]) < Bottom(r0[i])
    requires forall i | 0 <= i < |r1| :: Left(r1[i]) == px && Right(r1[i]) == px + width
    requires forall i | 0 <= i < |r1| :: 0.0 <= Top(r1[i]) < Bottom(r1[i])
    ensures RectsApart(st, r0 + r1)
    ensures forall i | 0 <= i < |r0 + r1| :: 0.0 <= Left((r0 + r1)[i]) < Right((r0 + r1)[i]) <= px + width
    ensures forall i | 0 <= i < |r0 + r1| :: 0.0 <= Top((r0 + r1)[i]) < Bottom((r0 + r1)[i])
  {
    hide Left, Right, Top, Bottom;
    var rs := r0 + r1;
    forall i, j | 0 <= i < j < |rs| ensures Beyond(st, rs[i], rs[j]) {
      if i >= |r0| { assert rs[i] == r1[i - |r0|] && rs[j] == r1[j - |r0|]; }
    }
  }

  /** Every device stands inside its own zone, and any two devices are at least one grid
      step apart along x or along z. */
  lemma {:induction false} DevicesPlaced(st: Style, shape: Shape)
    requires Sane(st) && AllPopulated(shape)
    ensures CellsInside(st, Cells(st, shape), Rects(st, shape)) && CellsApart(st, Cells(st, shape))
  {
    if shape != [] {
      var last := |shape| - 1;
      var px, width := XAfter(st, shape[..last]), PlantWidth(st, shape[last]);
      var ns := shape[last];
      var r0, r1 := Rects(st, shape[..last]), PlantRects(st, px, width, ns);
      var c0, c1 := Cells(st, shape[..last]), PlantCells(st, px, width, ns, |r0|);
      DevicesPlaced(st, shape[..last]);
      forall i | 0 <= i < |ns| ensures GridWidth(st, ns[i]) <= width { WidthCoversGrid(st, ns, i); }
      PlantCellsPlaced(st, px, width, ns, |r0|);
      ZonesDisjoint(st, shape);
      PlacedConcat(st, c0, c1, r0, r1);
    }
  }

  lemma PlacedConcat(st: Style, c0: seq<Cell>, c1: seq<Cell>, r0: seq<Rect>, r1: seq<Rect>)
    requires Sane(st) && RectsApart(st, r0 + r1)
    requires CellsInside(st, c0, r0) && CellsApart(st, c0) && CellsApart(st, c1)
    requires forall i | 0 <= i < |c1| ::
               |r0| <= c1[i].zone < |r0| + |r1| && Inside(st, c1[i], r1[c1[i].zone - |r0|])
    ensures CellsInside(st, c0 + c1, r0 + r1) && CellsApart(st, c0 + c1)
  {
    var cs, rs := c0 + c1, r0 + r1;
    forall i | 0 <= i < |cs| ensures cs[i].zone < |rs| && Inside(st, cs[i], rs[cs[i].zone]) {
      if i >= |c0| { assert cs[i] == c1[i - |c0|]; } else { assert cs[i] == c0[i]; }
    }
    forall i, j | 0 <= i < j < |cs| ensures Apart(st, cs[i], cs[j]) {
      if i >= |c0| {
        assert Apart(st, c1[i - |c0|], c1[j - |c0|]);
      } else if j < |c0| {
        assert Apart(st, c0[i], c0[j]);
      } else {
        assert cs[i] == c0[i] && cs[j] == c1[j - |c0|];
        assert Beyond(st, rs[cs[i].zone], rs[cs[j].zone]);
        ZonesKeepCellsApart(st, cs[i], rs[cs[i].zone], cs[j], rs[cs[j].zone]);
      }
    }
  }
}
