/** The OctoMap adapter (`localmap_core/octomap_obstacle_adapter.py`): occupied voxel centres
    are cropped, bucketed into coarse cells and turned into one box per cell, centred on the
    mean of the cell's points. */
module Octomap {
  import opened Geometry
  import opened Collision

  datatype Range = Unbounded | Range(lower: real, upper: real)

  /** A crop region; an axis may be left out, and so may the whole region. */
  datatype Crop = Crop(x: Range, y: Range, z: Range)

  function RangeOf(crop: Crop, axis: Axis): Range {
    match axis
    case AxisX => crop.x
    case AxisY => crop.y
    case AxisZ => crop.z
  }

  predicate InRange(v: real, range: Range) {
    range.Unbounded? || range.lower <= v <= range.upper
  }

  predicate InCrop(p: Vec, crop: Crop) {
    InRange(p.x, crop.x) && InRange(p.y, crop.y) && InRange(p.z, crop.z)
  }

  method BoundsMask(points: seq<Vec>, crop: Crop) returns (mask: seq<bool>)
    ensures |mask| == |points|
    ensures forall i :: 0 <= i < |points| ==> mask[i] == InCrop(points[i], crop)
  {
    var axes := [AxisX, AxisY, AxisZ];
    mask := seq(|points|, _ => true);
    for a := 0 to |axes|
      invariant |mask| == |points|
      invariant forall i :: 0 <= i < |points| ==>
        mask[i] == forall b :: 0 <= b < a ==> InRange(Along(points[i], axes[b]), RangeOf(crop, axes[b]))
    {
      mask := seq(|points|, i requires 0 <= i < |points| =>
        mask[i] && InRange(Along(points[i], axes[a]), RangeOf(crop, axes[a])));
    }
    forall i | 0 <= i < |points|
      ensures mask[i] == InCrop(points[i], crop)
    {
      assert axes[0] == AxisX && axes[1] == AxisY && axes[2] == AxisZ;
    }
  }

  /** The elements of `points` that satisfy `keep`, in order. */
  function Filter(points: seq<Vec>, keep: Vec -> bool): (kept: seq<Vec>)
    ensures forall p :: p in kept <==> p in points && keep(p)
  {
    if points == [] then []
    else
      var rest := Filter(points[..|points| - 1], keep);
      var last := points[|points| - 1];
      if keep(last) then rest + [last] else rest
  }

  function Cropped(centers: seq<Vec>, crop: Crop): seq<Vec> { Filter(centers, p => InCrop(p, crop)) }

  datatype Cell = Cell(i: int, j: int, k: int)

  function CellOf(p: Vec, resolution: real): Cell
    requires resolution > 0.0
  {
    Cell((p.x / resolution).Floor, (p.y / resolution).Floor, (p.z / resolution).Floor)
  }

  /** Lexicographic order, the order of the unique keys. */
  predicate CellLess(a: Cell, b: Cell) {
    a.i < b.i || (a.i == b.i && (a.j < b.j || (a.j == b.j && a.k < b.k)))
  }

  ghost predicate StrictlySorted(cells: seq<Cell>) {
    forall a, b :: 0 <= a < b < |cells| ==> CellLess(cells[a], cells[b])
  }

  function Insert(cells: seq<Cell>, c: Cell): (r: seq<Cell>)
    ensures forall d :: d in r <==> d == c || d in cells
    ensures StrictlySorted(cells) ==> StrictlySorted(r)
  {
    if cells == [] || CellLess(c, cells[0]) then [c] + cells
    else if cells[0] == c then cells
    else
      assert cells == [cells[0]] + cells[1..];
      assert StrictlySorted(cells) ==> forall d :: d in cells[1..] ==> CellLess(cells[0], d);
      [cells[0]] + Insert(cells[1..], c)
  }

  /** The cells the points fall in: sorted, without repeats. */
  function UniqueCells(points: seq<Vec>, resolution: real): (cells: seq<Cell>)
    requires resolution > 0.0
    ensures StrictlySorted(cells)
    ensures forall c :: c in cells <==> exists p :: p in points && CellOf(p, resolution) == c
  {
    if points == [] then []
    else
      var n := |points| - 1;
      assert points == points[..n] + [points[n]];
      Insert(UniqueCells(points[..n], resolution), CellOf(points[n], resolution))
  }

  function Members(points: seq<Vec>, resolution: real, cell: Cell): seq<Vec>
    requires resolution > 0.0
  {
    Filter(points, p => CellOf(p, resolution) == cell)
  }

  function Sum(points: seq<Vec>): Vec {
    if points == [] then Vec(0.0, 0.0, 0.0)
    else Add(Sum(points[..|points| - 1]), points[|points| - 1])
  }

  function Mean(points: seq<Vec>): Vec
    requires points != []
  {
    var s, n := Sum(points), |points| as real;
    Vec(s.x / n, s.y / n, s.z / n)
  }

  function CellBox(points: seq<Vec>, resolution: real, cell: Cell): Obstacle
    requires resolution > 0.0
    requires Members(points, resolution, cell) != []
  {
    BoxObstacle(Mean(Members(points, resolution, cell)), Vec(resolution, resolution, resolution))
  }

  lemma CellHasMembers(points: seq<Vec>, resolution: real, cell: Cell)
    requires resolution > 0.0
    requires cell in UniqueCells(points, resolution)
    ensures Members(points, resolution, cell) != []
  {
    var p :| p in points && CellOf(p, resolution) == cell;
    assert p in Members(points, resolution, cell);
  }

  /** One box per cell, in cell order, for at most `maxObstacles` cells. */
  ghost predicate IsAdapted(centers: seq<Vec>, boxSize: real, crop: Crop, maxObstacles: nat, obstacles: seq<Obstacle>)
    requires boxSize > 0.0
  {
    var points := Cropped(centers, crop);
    var cells := UniqueCells(points, boxSize);
    && |obstacles| == (if |cells| <= maxObstacles then |cells| else maxObstacles)
    && forall n :: 0 <= n < |obstacles| ==>
         && Members(points, boxSize, cells[n]) != []
         && obstacles[n] == CellBox(points, boxSize, cells[n])
  }

  method CentersToObstacleBoxes(centers: seq<Vec>, boxSize: real, crop: Crop, maxObstacles: nat)
    returns (obstacles: seq<Obstacle>)
    requires boxSize > 0.0
    ensures IsAdapted(centers, boxSize, crop, maxObstacles, obstacles)
  {
    obstacles := [];
    var points := Cropped(centers, crop);
    if points == [] {
      return;
    }
    var cells := UniqueCells(points, boxSize);
    var limit := if |cells| <= maxObstacles then |cells| else maxObstacles;
    for index := 0 to limit
      invariant |obstacles| == index
      invariant forall n :: 0 <= n < index ==>
        && Members(points, boxSize, cells[n]) != []
        && obstacles[n] == CellBox(points, boxSize, cells[n])
    {
      CellHasMembers(points, boxSize, cells[index]);
      var members := Members(points, boxSize, cells[index]);
      obstacles := obstacles + [BoxObstacle(Mean(members), Vec(boxSize, boxSize, boxSize))];
    }
  }

  // ------------------------------------------------------------- how far the mean may drift

  /** `lo <= v < hi` on every axis. */
  predicate Within(v: Vec, lo: Vec, hi: Vec) {
    lo.x <= v.x < hi.x && lo.y <= v.y < hi.y && lo.z <= v.z < hi.z
  }

  lemma {:induction false} SumBounds(points: seq<Vec>, lo: Vec, hi: Vec)
    requires points != []
    requires forall p <- points :: Within(p, lo, hi)
    ensures Within(Sum(points), Scale(|points| as real, lo), Scale(|points| as real, hi))
  {
    var n := |points| - 1;
    var rest, last := points[..n], points[n];
    assert Within(last, lo, hi);
    if n == 0 {
      assert Sum(points) == last by {
        assert rest == [];
      }
    } else {
      SumBounds(rest, lo, hi);
      OneMore(n as real, lo.x);
      OneMore(n as real, lo.y);
      OneMore(n as real, lo.z);
      OneMore(n as real, hi.x);
      OneMore(n as real, hi.y);
      OneMore(n as real, hi.z);
    }
  }

  lemma OneMore(n: real, a: real)
    ensures (n + 1.0) * a == n * a + a
  {}

  lemma QuotientBounds(s: real, n: real, lo: real, hi: real)
    requires n > 0.0
    requires n * lo <= s < n * hi
    ensures lo <= s / n < hi
  {
    var q := s / n;
    assert q * n == s;
    if q < lo {
      ProductPositive(lo - q, n);
    }
    if q >= hi {
      ProductMonotone(hi, q, n);
    }
  }

  lemma MeanBounds(points: seq<Vec>, lo: Vec, hi: Vec)
    requires points != []
    requires forall p <- points :: Within(p, lo, hi)
    ensures Within(Mean(points), lo, hi)
  {
    SumBounds(points, lo, hi);
    var s, n := Sum(points), |points| as real;
    QuotientBounds(s.x, n, lo.x, hi.x);
    QuotientBounds(s.y, n, lo.y, hi.y);
    QuotientBounds(s.z, n, lo.z, hi.z);
  }

  lemma FloorBounds(a: real, resolution: real)
    requires resolution > 0.0
    ensures (a / resolution).Floor as real * resolution <= a
    ensures a < (a / resolution).Floor as real * resolution + resolution
  {
    var q := a / resolution;
    assert q * resolution == a;
    AboveCellStart(a, q, q.Floor as real, resolution);
    BelowNextCell(a, q, q.Floor as real, resolution);
  }

  lemma AboveCellStart(a: real, q: real, f: real, resolution: real)
    requires resolution > 0.0 && q * resolution == a
    requires f <= q
    ensures f * resolution <= a
  {
    ProductMonotone(f, q, resolution);
  }

  lemma BelowNextCell(a: real, q: real, f: real, resolution: real)
    requires resolution > 0.0 && q * resolution == a
    requires q < f + 1.0
    ensures a < f * resolution + resolution
  {
    var g := f + 1.0;
    ProductStrict(q, g, resolution);
    OneMore(f, resolution);
  }

  function Corner(cell: Cell, resolution: real): Vec {
    Vec(cell.i as real * resolution, cell.j as real * resolution, cell.k as real * resolution)
  }

  lemma InItsCell(p: Vec, resolution: real)
    requires resolution > 0.0
    ensures
      var lo := Corner(CellOf(p, resolution), resolution);
      Within(p, lo, Add(lo, Vec(resolution, resolution, resolution)))
  {
    FloorBounds(p.x, resolution);
    FloorBounds(p.y, resolution);
    FloorBounds(p.z, resolution);
  }

  /** The mean of a cell's points is less than one cell size from each of them, per axis. */
  lemma MeanNearMembers(points: seq<Vec>, resolution: real, p: Vec)
    requires resolution > 0.0
    requires p in points
    ensures
      var members := Members(points, resolution, CellOf(p, resolution));
      members != [] && InBox(p, Mean(members), Vec(resolution, resolution, resolution))
  {
    var cell := CellOf(p, resolution);
    var members := Members(points, resolution, cell);
    var lo := Corner(cell, resolution);
    var hi := Add(lo, Vec(resolution, resolution, resolution));
    forall q <- members
      ensures Within(q, lo, hi)
    {
      InItsCell(q, resolution);
    }
    assert p in members;
    MeanBounds(members, lo, hi);
  }

  // ------------------------------------------------------------------ end to end

  /** Every cropped centre has the box of its own cell among the obstacles. */
  ghost predicate EveryCellHasBox(points: seq<Vec>, resolution: real, obstacles: seq<Obstacle>)
    requires resolution > 0.0
  {
    forall p <- points ::
      var members := Members(points, resolution, CellOf(p, resolution));
      members != [] && BoxObstacle(Mean(members), Vec(resolution, resolution, resolution)) in obstacles
  }

  lemma AllCellsKept(centers: seq<Vec>, boxSize: real, crop: Crop, maxObstacles: nat, obstacles: seq<Obstacle>)
    requires boxSize > 0.0
    requires IsAdapted(centers, boxSize, crop, maxObstacles, obstacles)
    requires |UniqueCells(Cropped(centers, crop), boxSize)| <= maxObstacles
    ensures EveryCellHasBox(Cropped(centers, crop), boxSize, obstacles)
  {
    var points := Cropped(centers, crop);
    var cells := UniqueCells(points, boxSize);
    forall p <- points
      ensures
        var members := Members(points, boxSize, CellOf(p, boxSize));
        members != [] && BoxObstacle(Mean(members), Vec(boxSize, boxSize, boxSize)) in obstacles
    {
      var cell := CellOf(p, boxSize);
      assert cell in cells;
      var n :| 0 <= n < |cells| && cells[n] == cell;
      assert obstacles[n] == CellBox(points, boxSize, cell);
    }
  }

  lemma FloorIs(a: real, i: int, resolution: real, low: real)
    requires resolution > 0.0 && low == i as real * resolution
    requires low <= a < low + resolution
    ensures (a / resolution).Floor == i
  {
    var q, f := a / resolution, i as real;
    assert q * resolution == a;
    FactorOrder(f, q, resolution);
    BelowNext(a, q, f, resolution, low);
  }

  lemma BelowNext(a: real, q: real, f: real, resolution: real, low: real)
    requires resolution > 0.0 && q * resolution == a && low == f * resolution && a < low + resolution
    ensures q < f + 1.0
  {
    var g := f + 1.0;
    assert g * resolution == low + resolution by {
      OneMore(f, resolution);
    }
    FactorStrictOrder(q, g, resolution);
  }

  lemma CellIs(v: Vec, cell: Cell, resolution: real, lo: Vec)
    requires resolution > 0.0 && lo == Corner(cell, resolution)
    requires Within(v, lo, Add(lo, Vec(resolution, resolution, resolution)))
    ensures CellOf(v, resolution) == cell
  {
    FloorIs(v.x, cell.i, resolution, lo.x);
    FloorIs(v.y, cell.j, resolution, lo.y);
    FloorIs(v.z, cell.k, resolution, lo.z);
  }

  /** The mean of a cell's points lies in the cell again, so boxes of different cells differ. */
  lemma MeanStaysInCell(points: seq<Vec>, resolution: real, cell: Cell)
    requires resolution > 0.0
    requires Members(points, resolution, cell) != []
    ensures CellOf(Mean(Members(points, resolution, cell)), resolution) == cell
  {
    var members := Members(points, resolution, cell);
    var lo := Corner(cell, resolution);
    var hi := Add(lo, Vec(resolution, resolution, resolution));
    forall q <- members
      ensures Within(q, lo, hi)
    {
      InItsCell(q, resolution);
    }
    MeanBounds(members, lo, hi);
    CellIs(Mean(members), cell, resolution, lo);
  }

  lemma DifferentCellsDifferentBoxes(points: seq<Vec>, resolution: real, a: Cell, b: Cell)
    requires resolution > 0.0 && a != b
    requires Members(points, resolution, a) != [] && Members(points, resolution, b) != []
    ensures CellBox(points, resolution, a) != CellBox(points, resolution, b)
  {
    MeanStaysInCell(points, resolution, a);
    MeanStaysInCell(points, resolution, b);
  }

  /** The first cell past the limit has no box. */
  lemma CutCellHasNoBox(centers: seq<Vec>, boxSize: real, crop: Crop, maxObstacles: nat, obstacles: seq<Obstacle>)
    requires boxSize > 0.0
    requires IsAdapted(centers, boxSize, crop, maxObstacles, obstacles)
    requires maxObstacles < |UniqueCells(Cropped(centers, crop), boxSize)|
    ensures
      var points := Cropped(centers, crop);
      var cell := UniqueCells(points, boxSize)[maxObstacles];
      Members(points, boxSize, cell) != [] && CellBox(points, boxSize, cell) !in obstacles
  {
    var points := Cropped(centers, crop);
    var cells := UniqueCells(points, boxSize);
    CellHasMembers(points, boxSize, cells[maxObstacles]);
    forall n | 0 <= n < |obstacles|
      ensures obstacles[n] != CellBox(points, boxSize, cells[maxObstacles])
    {
      assert CellLess(cells[n], cells[maxObstacles]);
      DifferentCellsDifferentBoxes(points, boxSize, cells[n], cells[maxObstacles]);
    }
  }

  /** Some occupied centre is left without a box exactly when there are more cells than the
      limit: the cut is silent. */
  lemma CellsKeptIffWithinLimit(
    centers: seq<Vec>, boxSize: real, crop: Crop, maxObstacles: nat, obstacles: seq<Obstacle>)
    requires boxSize > 0.0
    requires IsAdapted(centers, boxSize, crop, maxObstacles, obstacles)
    ensures
      EveryCellHasBox(Cropped(centers, crop), boxSize, obstacles) <==>
      |UniqueCells(Cropped(centers, crop), boxSize)| <= maxObstacles
  {
    var points := Cropped(centers, crop);
    var cells := UniqueCells(points, boxSize);
    if |cells| <= maxObstacles {
      AllCellsKept(centers, boxSize, crop, maxObstacles, obstacles);
    } else {
      CutCellHasNoBox(centers, boxSize, crop, maxObstacles, obstacles);
      var cell := cells[maxObstacles];
      assert cell in cells;
      var p :| p in points && CellOf(p, boxSize) == cell;
      var members := Members(points, boxSize, CellOf(p, boxSize));
      assert BoxObstacle(Mean(members), Vec(boxSize, boxSize, boxSize)) == CellBox(points, boxSize, cell);
    }
  }
}
