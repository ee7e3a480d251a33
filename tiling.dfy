/**
 * Region and tiling algebra of cars/core/tiling.py: boxes [xmin, ymin, xmax, ymax],
 * regular grids of corners, splitting a box into cells, cropping, padding, union,
 * listing the tiles of a tiled image that touch a region, snapping to a resolution.
 */
module Tiling {
  import opened Arith
  import opened Wrappers

  /** A region [xmin, ymin, xmax, ymax]; nothing forces it to be consistent. */
  datatype Box = Box(xmin: real, ymin: real, xmax: real, ymax: real)

  /** The four margins given to `pad`, in the order left, bottom, right, top. */
  datatype Margins = Margins(left: real, bottom: real, right: real, top: real)

  /** A grid corner (x, y), the last axis of the numpy grid. */
  datatype Point = Point(x: real, y: real)

  /** One entry of `list_tiles`: {"idx": ..., "idy": ..., "tile": ...}. */
  datatype TileEntry = TileEntry(idx: int, idy: int, tile: Box)

  /** `empty`: no pixel inside, or inconsistent. */
  predicate IsEmpty(b: Box)
    ensures IsEmpty(b) <==> !Overlaps(b, b)
  {
    b.xmin >= b.xmax || b.ymin >= b.ymax
  }

  /** Every edge of `a` lies in the span of `b`. */
  predicate InSpan(a: Box, b: Box) {
    b.xmin <= a.xmin <= b.xmax && b.xmin <= a.xmax <= b.xmax &&
    b.ymin <= a.ymin <= b.ymax && b.ymin <= a.ymax <= b.ymax
  }

  /** `outer` reaches at least as far as `inner` on every side. */
  predicate Encloses(outer: Box, inner: Box) {
    outer.xmin <= inner.xmin && inner.xmax <= outer.xmax &&
    outer.ymin <= inner.ymin && inner.ymax <= outer.ymax
  }

  /** The interiors of two boxes meet. */
  predicate Overlaps(a: Box, b: Box) {
    a.xmin < b.xmax && b.xmin < a.xmax && a.ymin < b.ymax && b.ymin < a.ymax
  }

  function Clamp(v: real, lo: real, hi: real): real {
    Min(hi, Max(lo, v))
  }

  /** `crop(region1, region2)`: each coordinate of region1 clamped to the span of region2. */
  function Crop(r1: Box, r2: Box): (r: Box)
    ensures !IsEmpty(r1) && !IsEmpty(r2) ==> (IsEmpty(r) <==> !Overlaps(r1, r2))
    ensures !IsEmpty(r1) && !IsEmpty(r2) && Overlaps(r1, r2) ==>
              r == Box(Max(r1.xmin, r2.xmin), Max(r1.ymin, r2.ymin), Min(r1.xmax, r2.xmax), Min(r1.ymax, r2.ymax))
  {
    Box(Clamp(r1.xmin, r2.xmin, r2.xmax), Clamp(r1.ymin, r2.ymin, r2.ymax),
        Clamp(r1.xmax, r2.xmin, r2.xmax), Clamp(r1.ymax, r2.ymin, r2.ymax))
  }

  /**
   * The crop stays in the span of a consistent region2, leaves a region1 already in that
   * span unchanged, and is empty when the two regions do not overlap.
   */
  lemma CropProperties(r1: Box, r2: Box)
    ensures var r := Crop(r1, r2);
            (r2.xmin <= r2.xmax ==> r2.xmin <= r.xmin <= r2.xmax && r2.xmin <= r.xmax <= r2.xmax) &&
            (r2.ymin <= r2.ymax ==> r2.ymin <= r.ymin <= r2.ymax && r2.ymin <= r.ymax <= r2.ymax)
    ensures InSpan(r1, r2) ==> Crop(r1, r2) == r1
    ensures !Overlaps(r1, r2) ==> IsEmpty(Crop(r1, r2))
  {
  }

  /** A non-empty crop lies inside the cropping box, whatever that box is. */
  lemma NonEmptyCropInside(r1: Box, r2: Box)
    requires !IsEmpty(Crop(r1, r2))
    ensures InSpan(Crop(r1, r2), r2) && !IsEmpty(r2)
  {
  }

  /** `pad(region, margins)` */
  function Pad(b: Box, m: Margins): (r: Box)
    ensures m == Margins(0.0, 0.0, 0.0, 0.0) ==> r == b
    ensures m.left >= 0.0 && m.bottom >= 0.0 && m.right >= 0.0 && m.top >= 0.0 ==> Encloses(r, b)
  {
    Box(b.xmin - m.left, b.ymin - m.bottom, b.xmax + m.right, b.ymax + m.top)
  }

  /** Padding by the opposite margins undoes a padding. */
  lemma PadInverse(b: Box, m: Margins)
    ensures Pad(Pad(b, m), Margins(-m.left, -m.bottom, -m.right, -m.top)) == b
  {
  }

  function UnionOfTwo(a: Box, b: Box): Box {
    Box(Min(a.xmin, b.xmin), Min(a.ymin, b.ymin), Max(a.xmax, b.xmax), Max(a.ymax, b.ymax))
  }

  /** `union(regions)`: min of the mins and max of the maxes; Python's min() of nothing raises. */
  function Union(regions: seq<Box>): (r: Result<Box>)
    ensures r.Ok? <==> |regions| > 0
    ensures r.Ok? ==> forall k :: 0 <= k < |regions| ==> Encloses(r.value, regions[k])
    ensures r.Ok? ==> exists k :: 0 <= k < |regions| && r.value.xmin == regions[k].xmin
    ensures r.Ok? ==> exists k :: 0 <= k < |regions| && r.value.xmax == regions[k].xmax
    ensures r.Ok? ==> exists k :: 0 <= k < |regions| && r.value.ymin == regions[k].ymin
    ensures r.Ok? ==> exists k :: 0 <= k < |regions| && r.value.ymax == regions[k].ymax
  {
    if |regions| == 0 then Err(ValueError("min() arg is an empty sequence"))
    else if |regions| == 1 then Ok(regions[0])
    else
      var rest := Union(regions[1..]);
      assert forall k :: 1 <= k < |regions| ==> regions[k] == regions[1..][k - 1];
      Ok(UnionOfTwo(regions[0], rest.value))
  }

  /** The union is the smallest box enclosing all the regions. */
  lemma {:induction false} UnionIsLeast(regions: seq<Box>, outer: Box)
    requires |regions| > 0
    requires forall k :: 0 <= k < |regions| ==> Encloses(outer, regions[k])
    ensures Encloses(outer, Union(regions).value)
  {
    if |regions| > 1 {
      assert forall k :: 0 <= k < |regions| - 1 ==> regions[1..][k] == regions[k + 1];
      UnionIsLeast(regions[1..], outer);
    }
  }

  // ---------------------------------------------------------------------------
  // grid and split

  /** ceil((hi - lo) / step), the number of splits of one axis. */
  function NbSplits(lo: real, hi: real, step: int): int
    requires step > 0
  {
    Ceil((hi - lo) / step as real)
  }

  lemma NbSplitsNonNegative(lo: real, hi: real, step: int)
    requires step > 0 && lo <= hi
    ensures NbSplits(lo, hi, step) >= 0
  {
  }

  /** The corner `[j, i]` of `grid(xmin, ymin, xmax, ymax, xsplit, ysplit)`. */
  function GridCorner(xmin: real, ymin: real, xmax: real, ymax: real,
                      xsplit: int, ysplit: int, j: int, i: int): Point
  {
    Point(Min(xmax, xmin + (i * xsplit) as real), Min(ymax, ymin + (j * ysplit) as real))
  }

  /** The cell (i, j) of `split` before cropping. */
  function Cell(xmin: real, ymin: real, xsplit: int, ysplit: int, i: int, j: int): Box {
    Box(xmin + (i * xsplit) as real, ymin + (j * ysplit) as real,
        xmin + ((i + 1) * xsplit) as real, ymin + ((j + 1) * ysplit) as real)
  }

  /** `grid`: an (nb_ysplits + 1) x (nb_xsplits + 1) array of corners, filled column by column. */
  method Grid(xmin: real, ymin: real, xmax: real, ymax: real, xsplit: int, ysplit: int)
    returns (g: array2<Point>)
    requires xsplit > 0 && ysplit > 0
    requires xmin <= xmax && ymin <= ymax
    ensures g.Length0 == NbSplits(ymin, ymax, ysplit) + 1
    ensures g.Length1 == NbSplits(xmin, xmax, xsplit) + 1
    ensures forall j, i :: 0 <= j < g.Length0 && 0 <= i < g.Length1 ==>
              g[j, i] == GridCorner(xmin, ymin, xmax, ymax, xsplit, ysplit, j, i)
  {
    var nbX := NbSplits(xmin, xmax, xsplit);
    var nbY := NbSplits(ymin, ymax, ysplit);
    g := new Point[nbY + 1, nbX + 1];
    for i := 0 to nbX + 1
      invariant forall j', i' :: 0 <= j' < g.Length0 && 0 <= i' < i ==>
                  g[j', i'] == GridCorner(xmin, ymin, xmax, ymax, xsplit, ysplit, j', i')
    {
      for j := 0 to nbY + 1
        invariant forall j', i' :: 0 <= j' < g.Length0 && 0 <= i' < i ==>
                    g[j', i'] == GridCorner(xmin, ymin, xmax, ymax, xsplit, ysplit, j', i')
        invariant forall j' :: 0 <= j' < j ==>
                    g[j', i] == GridCorner(xmin, ymin, xmax, ymax, xsplit, ysplit, j', i)
      {
        g[j, i] := Point(Min(xmax, xmin + (i * xsplit) as real), Min(ymax, ymin + (j * ysplit) as real));
      }
    }
  }

  /** The x-coordinate reached after `nb` splits covers the box. */
  lemma SplitsCover(lo: real, hi: real, step: int)
    requires step > 0
    ensures lo + (NbSplits(lo, hi, step) * step) as real >= hi
  {
    var q := (hi - lo) / step as real;
    var n := NbSplits(lo, hi, step);
    MulConv(n, step);
    assert q * step as real == hi - lo;
    assert n as real >= q;
    assert n as real * step as real >= q * step as real;
  }

  /** A cell index below the number of splits starts strictly inside the box. */
  lemma CellStartsInside(lo: real, hi: real, step: int, i: int)
    requires step > 0 && 0 <= i < NbSplits(lo, hi, step)
    ensures lo + (i * step) as real < hi
  {
    var q := (hi - lo) / step as real;
    BelowCeil(i, q);
    assert i as real < q;
    LtDiv(i as real, hi - lo, step as real);
    MulConv(i, step);
  }

  /** Corners lie in the bounding box, x grows along a row, the first column is xmin and the last is xmax. */
  lemma GridCornerProperties(xmin: real, ymin: real, xmax: real, ymax: real,
                             xsplit: int, ysplit: int, j: int, i: int)
    requires xsplit > 0 && ysplit > 0 && xmin <= xmax && ymin <= ymax
    requires 0 <= j <= NbSplits(ymin, ymax, ysplit) && 0 <= i <= NbSplits(xmin, xmax, xsplit)
    ensures var p := GridCorner(xmin, ymin, xmax, ymax, xsplit, ysplit, j, i);
            xmin <= p.x <= xmax && ymin <= p.y <= ymax
    ensures i == 0 ==> GridCorner(xmin, ymin, xmax, ymax, xsplit, ysplit, j, i).x == xmin
    ensures i == NbSplits(xmin, xmax, xsplit) ==> GridCorner(xmin, ymin, xmax, ymax, xsplit, ysplit, j, i).x == xmax
    ensures i > 0 ==> GridCorner(xmin, ymin, xmax, ymax, xsplit, ysplit, j, i - 1).x
                      <= GridCorner(xmin, ymin, xmax, ymax, xsplit, ysplit, j, i).x
  {
    MulConv(i, xsplit);
    MulConv(j, ysplit);
    if i == NbSplits(xmin, xmax, xsplit) {
      SplitsCover(xmin, xmax, xsplit);
    }
    if i > 0 {
      MulConv(i - 1, xsplit);
    }
  }

  /** The cells of column i (y index 0 .. ny - 1), cropped, in increasing y. */
  function SplitColumn(xmin: real, ymin: real, xmax: real, ymax: real,
                       xsplit: int, ysplit: int, i: int, ny: int): (col: seq<Box>)
    decreases ny
    ensures |col| == if ny > 0 then ny else 0
  {
    if ny <= 0 then []
    else SplitColumn(xmin, ymin, xmax, ymax, xsplit, ysplit, i, ny - 1)
         + [Crop(Cell(xmin, ymin, xsplit, ysplit, i, ny - 1), Box(xmin, ymin, xmax, ymax))]
  }

  /** The cells of columns 0 .. nx - 1, column after column: the order `split` builds. */
  function SplitCells(xmin: real, ymin: real, xmax: real, ymax: real,
                      xsplit: int, ysplit: int, nx: int, ny: int): (cells: seq<Box>)
    decreases nx
    requires ny >= 0
    ensures |cells| == if nx > 0 then nx * ny else 0
  {
    if nx <= 0 then []
    else SplitCells(xmin, ymin, xmax, ymax, xsplit, ysplit, nx - 1, ny)
         + SplitColumn(xmin, ymin, xmax, ymax, xsplit, ysplit, nx - 1, ny)
  }

  /** `split`: every cell of the grid as an explicit box, x index outer, y index inner. */
  method Split(xmin: real, ymin: real, xmax: real, ymax: real, xsplit: int, ysplit: int)
    returns (regions: seq<Box>)
    requires xsplit > 0 && ysplit > 0
    requires xmin <= xmax && ymin <= ymax
    ensures regions == SplitCells(xmin, ymin, xmax, ymax, xsplit, ysplit,
                                  NbSplits(xmin, xmax, xsplit), NbSplits(ymin, ymax, ysplit))
  {
    var nbX := NbSplits(xmin, xmax, xsplit);
    var nbY := NbSplits(ymin, ymax, ysplit);
    regions := [];
    for i := 0 to nbX
      invariant regions == SplitCells(xmin, ymin, xmax, ymax, xsplit, ysplit, i, nbY)
    {
      for j := 0 to nbY
        invariant regions == SplitCells(xmin, ymin, xmax, ymax, xsplit, ysplit, i, nbY)
                             + SplitColumn(xmin, ymin, xmax, ymax, xsplit, ysplit, i, j)
      {
        var region := Box(xmin + (i * xsplit) as real, ymin + (j * ysplit) as real,
                          xmin + ((i + 1) * xsplit) as real, ymin + ((j + 1) * ysplit) as real);
        region := Crop(region, Box(xmin, ymin, xmax, ymax));
        regions := regions + [region];
      }
    }
  }

  lemma {:induction false} SplitColumnAt(xmin: real, ymin: real, xmax: real, ymax: real,
                                         xsplit: int, ysplit: int, i: int, ny: int, j: int)
    requires 0 <= j < ny
    ensures SplitColumn(xmin, ymin, xmax, ymax, xsplit, ysplit, i, ny)[j]
            == Crop(Cell(xmin, ymin, xsplit, ysplit, i, j), Box(xmin, ymin, xmax, ymax))
    decreases ny
  {
    if j < ny - 1 {
      SplitColumnAt(xmin, ymin, xmax, ymax, xsplit, ysplit, i, ny - 1, j);
    }
  }

  /** Position i * ny + j of the split list holds cell (i, j). */
  lemma {:induction false} SplitCellsAt(xmin: real, ymin: real, xmax: real, ymax: real,
                                        xsplit: int, ysplit: int, nx: int, ny: int, i: int, j: int)
    requires 0 <= i < nx && 0 <= j < ny
    ensures 0 <= i * ny + j < |SplitCells(xmin, ymin, xmax, ymax, xsplit, ysplit, nx, ny)|
    ensures SplitCells(xmin, ymin, xmax, ymax, xsplit, ysplit, nx, ny)[i * ny + j]
            == Crop(Cell(xmin, ymin, xsplit, ysplit, i, j), Box(xmin, ymin, xmax, ymax))
    decreases nx
  {
    var prefix := SplitCells(xmin, ymin, xmax, ymax, xsplit, ysplit, nx - 1, ny);
    var column := SplitColumn(xmin, ymin, xmax, ymax, xsplit, ysplit, nx - 1, ny);
    IntMulStep(nx - 1, ny);
    IntMulStep(i, ny);
    assert |prefix| == (nx - 1) * ny && |column| == ny;
    if i < nx - 1 {
      IntMulLe(i + 1, nx - 1, ny);
      SplitCellsAt(xmin, ymin, xmax, ymax, xsplit, ysplit, nx - 1, ny, i, j);
      assert (prefix + column)[i * ny + j] == prefix[i * ny + j];
    } else {
      SplitColumnAt(xmin, ymin, xmax, ymax, xsplit, ysplit, nx - 1, ny, j);
      assert (prefix + column)[i * ny + j] == column[j];
    }
  }

  /**
   * Split and grid agree: split cell (i, j), found at position i * ny + j of the split list
   * (`SplitCellsAt`), spans from grid corner [j, i] to grid corner [j + 1, i + 1], and it is
   * never empty.
   */
  lemma SplitMatchesGrid(xmin: real, ymin: real, xmax: real, ymax: real,
                         xsplit: int, ysplit: int, i: int, j: int)
    requires xsplit > 0 && ysplit > 0 && xmin <= xmax && ymin <= ymax
    requires 0 <= i < NbSplits(xmin, xmax, xsplit) && 0 <= j < NbSplits(ymin, ymax, ysplit)
    ensures var cell := Crop(Cell(xmin, ymin, xsplit, ysplit, i, j), Box(xmin, ymin, xmax, ymax));
            var lo := GridCorner(xmin, ymin, xmax, ymax, xsplit, ysplit, j, i);
            var hi := GridCorner(xmin, ymin, xmax, ymax, xsplit, ysplit, j + 1, i + 1);
            cell == Box(lo.x, lo.y, hi.x, hi.y) && !IsEmpty(cell)
  {
    AxisCell(xmin, xmax, xsplit, i);
    AxisCell(ymin, ymax, ysplit, j);
    var cell := Crop(Cell(xmin, ymin, xsplit, ysplit, i, j), Box(xmin, ymin, xmax, ymax));
    assert cell.xmin == GridCorner(xmin, ymin, xmax, ymax, xsplit, ysplit, j, i).x;
    assert cell.ymin == GridCorner(xmin, ymin, xmax, ymax, xsplit, ysplit, j, i).y;
    assert cell.xmax == GridCorner(xmin, ymin, xmax, ymax, xsplit, ysplit, j + 1, i + 1).x;
    assert cell.ymax == GridCorner(xmin, ymin, xmax, ymax, xsplit, ysplit, j + 1, i + 1).y;
  }

  /** Cell i of one axis, clamped to [lo, hi], runs from corner i to corner i + 1 and is not empty. */
  lemma AxisCell(lo: real, hi: real, step: int, i: int)
    requires step > 0 && lo <= hi && 0 <= i < NbSplits(lo, hi, step)
    ensures Clamp(lo + (i * step) as real, lo, hi) == Min(hi, lo + (i * step) as real)
    ensures Clamp(lo + ((i + 1) * step) as real, lo, hi) == Min(hi, lo + ((i + 1) * step) as real)
    ensures Min(hi, lo + (i * step) as real) < Min(hi, lo + ((i + 1) * step) as real)
  {
    CellStartsInside(lo, hi, step, i);
    IntMulStep(i, step);
    assert 0 <= i * step;
  }

  // ---------------------------------------------------------------------------
  // list_tiles

  /** Tile (ix, iy) of a tiling with square tiles of side ts. */
  function TileBox(ix: int, iy: int, ts: int): Box {
    Box((ix * ts) as real, (iy * ts) as real, ((ix + 1) * ts) as real, ((iy + 1) * ts) as real)
  }

  /** The non-empty cropped tiles (ix, y) for y in [y0, y1), in increasing y. */
  function ColumnTiles(ix: int, y0: int, y1: int, ts: int, largest: Box): seq<TileEntry>
    decreases y1 - y0
  {
    if y1 <= y0 then []
    else
      var tile := Crop(TileBox(ix, y1 - 1, ts), largest);
      ColumnTiles(ix, y0, y1 - 1, ts, largest) + (if IsEmpty(tile) then [] else [TileEntry(ix, y1 - 1, tile)])
  }

  /** The non-empty cropped tiles with x in [x0, x1) and y in [y0, y1), x outer, y inner. */
  function RangeTiles(x0: int, x1: int, y0: int, y1: int, ts: int, largest: Box): seq<TileEntry>
    decreases x1 - x0
  {
    if x1 <= x0 then []
    else RangeTiles(x0, x1 - 1, y0, y1, ts, largest) + ColumnTiles(x1 - 1, y0, y1, ts, largest)
  }

  /** Index of the first tile reaching past v: floor(v / ts). */
  function FirstTile(v: real, ts: int): int
    requires ts != 0
  {
    Floor(v / ts as real)
  }

  /** One past the index of the last tile reaching below v: ceil(v / ts). */
  function EndTile(v: real, ts: int): int
    requires ts != 0
  {
    Ceil(v / ts as real)
  }

  /** What `list_tiles(region, largest_region, tile_size, margin)` returns. */
  function ListTilesSpec(region: Box, largest: Box, ts: int, margin: int): seq<TileEntry>
    requires ts != 0
  {
    RangeTiles(FirstTile(region.xmin, ts) - margin, EndTile(region.xmax, ts) + margin,
               FirstTile(region.ymin, ts) - margin, EndTile(region.ymax, ts) + margin,
               ts, largest)
  }

  /** The entries `RangeTiles` may hold. */
  ghost predicate IsTileOf(e: TileEntry, x0: int, x1: int, y0: int, y1: int, ts: int, largest: Box) {
    x0 <= e.idx < x1 && y0 <= e.idy < y1 &&
    e.tile == Crop(TileBox(e.idx, e.idy, ts), largest) && !IsEmpty(e.tile)
  }

  lemma {:induction false} ColumnTilesMembership(ix: int, y0: int, y1: int, ts: int, largest: Box, e: TileEntry)
    ensures e in ColumnTiles(ix, y0, y1, ts, largest) <==> IsTileOf(e, ix, ix + 1, y0, y1, ts, largest)
    decreases y1 - y0
  {
    if y1 > y0 {
      ColumnTilesMembership(ix, y0, y1 - 1, ts, largest, e);
    }
  }

  /** An entry is listed exactly when its indices are in range and its cropped tile is non-empty. */
  lemma {:induction false} RangeTilesMembership(x0: int, x1: int, y0: int, y1: int, ts: int,
                                                largest: Box, e: TileEntry)
    ensures e in RangeTiles(x0, x1, y0, y1, ts, largest) <==> IsTileOf(e, x0, x1, y0, y1, ts, largest)
    decreases x1 - x0
  {
    if x1 > x0 {
      RangeTilesMembership(x0, x1 - 1, y0, y1, ts, largest, e);
      ColumnTilesMembership(x1 - 1, y0, y1, ts, largest, e);
    }
  }

  /** The ZeroDivisionError of a float divided by zero, as in `region[0] / tile_size`. */
  const FLOAT_DIVISION_BY_ZERO: Error := ArithmeticError("float division by zero")

  /**
   * `list_tiles`: nested loops over the index ranges widened by `margin`; a zero tile size
   * raises at the first division.
   */
  method ListTiles(region: Box, largest: Box, ts: int, margin: int) returns (r: Result<seq<TileEntry>>)
    ensures r.Err? <==> ts == 0
    ensures r.Err? ==> r.error == FLOAT_DIVISION_BY_ZERO
    ensures r.Ok? ==> r.value == ListTilesSpec(region, largest, ts, margin)
  {
    if ts == 0 {
      return Err(FLOAT_DIVISION_BY_ZERO);
    }
    var minX := FirstTile(region.xmin, ts);
    var maxX := EndTile(region.xmax, ts);
    var minY := FirstTile(region.ymin, ts);
    var maxY := EndTile(region.ymax, ts);
    minX := minX - margin;
    minY := minY - margin;
    maxX := maxX + margin;
    maxY := maxY + margin;
    var out := [];
    var x := minX;
    while x < maxX
      invariant minX <= x && (x <= maxX || x == minX)
      invariant out == RangeTiles(minX, x, minY, maxY, ts, largest)
      decreases maxX - x
    {
      out := AppendColumn(out, x, minY, maxY, ts, largest);
      assert RangeTiles(minX, x + 1, minY, maxY, ts, largest)
             == RangeTiles(minX, x, minY, maxY, ts, largest) + ColumnTiles(x, minY, maxY, ts, largest);
      x := x + 1;
    }
    r := Ok(out);
  }

  /** The inner loop of `list_tiles`: appends the non-empty cropped tiles of column x, y from y0 up to y1. */
  method AppendColumn(out: seq<TileEntry>, x: int, y0: int, y1: int, ts: int, largest: Box)
    returns (out': seq<TileEntry>)
    ensures out' == out + ColumnTiles(x, y0, y1, ts, largest)
  {
    out' := out;
    var y := y0;
    while y < y1
      invariant y0 <= y && (y <= y1 || y == y0)
      invariant out' == out + ColumnTiles(x, y0, y, ts, largest)
      decreases y1 - y
    {
      var tile := Crop(TileBox(x, y, ts), largest);
      assert ColumnTiles(x, y0, y + 1, ts, largest)
             == ColumnTiles(x, y0, y, ts, largest) + (if IsEmpty(tile) then [] else [TileEntry(x, y, tile)]);
      if !IsEmpty(tile) {
        assert out' + [TileEntry(x, y, tile)] == out + (ColumnTiles(x, y0, y, ts, largest) + [TileEntry(x, y, tile)]);
        out' := out' + [TileEntry(x, y, tile)];
      }
      y := y + 1;
    }
    assert ColumnTiles(x, y0, y, ts, largest) == ColumnTiles(x, y0, y1, ts, largest);
  }

  /**
   * Every listed tile is non-empty, lies inside `largest`, equals the crop of its square
   * and has indices in [floor(min / ts) - margin, ceil(max / ts) + margin).
   */
  lemma ListTilesSound(region: Box, largest: Box, ts: int, margin: int, e: TileEntry)
    requires ts != 0
    requires e in ListTilesSpec(region, largest, ts, margin)
    ensures !IsEmpty(e.tile) && InSpan(e.tile, largest)
    ensures e.tile == Crop(TileBox(e.idx, e.idy, ts), largest)
    ensures FirstTile(region.xmin, ts) - margin <= e.idx < EndTile(region.xmax, ts) + margin
    ensures FirstTile(region.ymin, ts) - margin <= e.idy < EndTile(region.ymax, ts) + margin
  {
    ListTilesMembership(region, largest, ts, margin, e);
    NonEmptyCropInside(TileBox(e.idx, e.idy, ts), largest);
  }

  /** An index range [floor(lo / ts), ceil(hi / ts)) holds exactly the tiles meeting (lo, hi). */
  lemma IndexRangeMeets(lo: real, hi: real, ts: int, n: int)
    requires ts > 0
    ensures FirstTile(lo, ts) <= n < EndTile(hi, ts)
            <==> (n * ts) as real < hi && lo < ((n + 1) * ts) as real
  {
    BelowCeilDiv(hi, ts, n);
    AboveFloorDiv(lo, ts, n);
  }

  lemma BelowCeilDiv(hi: real, ts: int, n: int)
    requires ts > 0
    ensures n < Ceil(hi / ts as real) <==> (n * ts) as real < hi
  {
    BelowCeil(n, hi / ts as real);
    LtDiv(n as real, hi, ts as real);
    MulConv(n, ts);
  }

  lemma AboveFloorDiv(lo: real, ts: int, n: int)
    requires ts > 0
    ensures Floor(lo / ts as real) <= n <==> lo < ((n + 1) * ts) as real
  {
    AboveFloor(n, lo / ts as real);
    DivLt((n + 1) as real, lo, ts as real);
    MulConv(n + 1, ts);
  }

  /** With no margin, `list_tiles` returns exactly the non-empty cropped tiles whose square meets the region. */
  lemma ListTilesNoMarginExact(region: Box, largest: Box, ts: int, e: TileEntry)
    requires ts > 0
    ensures e in ListTilesSpec(region, largest, ts, 0)
            <==> Overlaps(TileBox(e.idx, e.idy, ts), region)
                 && e.tile == Crop(TileBox(e.idx, e.idy, ts), largest) && !IsEmpty(e.tile)
  {
    ListTilesMembership(region, largest, ts, 0, e);
    IndexRangeMeets(region.xmin, region.xmax, ts, e.idx);
    IndexRangeMeets(region.ymin, region.ymax, ts, e.idy);
  }

  /** A wider margin lists every tile a narrower one lists. */
  lemma ListTilesMarginMonotone(region: Box, largest: Box, ts: int, m1: int, m2: int, e: TileEntry)
    requires ts != 0 && m1 <= m2
    requires e in ListTilesSpec(region, largest, ts, m1)
    ensures e in ListTilesSpec(region, largest, ts, m2)
  {
    ListTilesMembership(region, largest, ts, m1, e);
    ListTilesMembership(region, largest, ts, m2, e);
  }

  /** An entry is listed exactly when it is a tile of the margin-widened index range. */
  lemma ListTilesMembership(region: Box, largest: Box, ts: int, margin: int, e: TileEntry)
    requires ts != 0
    ensures e in ListTilesSpec(region, largest, ts, margin)
            <==> IsTileOf(e, FirstTile(region.xmin, ts) - margin, EndTile(region.xmax, ts) + margin,
                          FirstTile(region.ymin, ts) - margin, EndTile(region.ymax, ts) + margin, ts, largest)
  {
    RangeTilesMembership(FirstTile(region.xmin, ts) - margin, EndTile(region.xmax, ts) + margin,
                         FirstTile(region.ymin, ts) - margin, EndTile(region.ymax, ts) + margin,
                         ts, largest, e);
  }

  // ---------------------------------------------------------------------------
  // roi_to_start_and_size and snap_to_grid

  datatype StartAndSize = StartAndSize(xstart: real, ystart: real, xsize: int, ysize: int)

  /**
   * `roi_to_start_and_size`: ystart is ymax, sizes are numpy-rounded extents over the
   * resolution; a zero resolution raises at the division.
   */
  function RoiToStartAndSize(region: Box, resolution: real): (r: Result<StartAndSize>)
    ensures r.Err? <==> resolution == 0.0
    ensures r.Err? ==> r.error == FLOAT_DIVISION_BY_ZERO
    ensures r.Ok? ==> r.value.xstart == region.xmin && r.value.ystart == region.ymax
    ensures r.Ok? ==> -0.5 <= (region.xmax - region.xmin) / resolution - r.value.xsize as real <= 0.5
    ensures r.Ok? ==> -0.5 <= (region.ymax - region.ymin) / resolution - r.value.ysize as real <= 0.5
    ensures r.Ok? && (region.xmax - region.xmin) / resolution - r.value.xsize as real in {0.5, -0.5}
            ==> r.value.xsize % 2 == 0
    ensures r.Ok? && (region.ymax - region.ymin) / resolution - r.value.ysize as real in {0.5, -0.5}
            ==> r.value.ysize % 2 == 0
  {
    if resolution == 0.0 then Err(FLOAT_DIVISION_BY_ZERO)
    else
      Ok(StartAndSize(region.xmin, region.ymax,
                      RoundHalfEven((region.xmax - region.xmin) / resolution),
                      RoundHalfEven((region.ymax - region.ymin) / resolution)))
  }

  /** The k-th multiple of a step. */
  function Multiple(k: int, step: real): real {
    k as real * step
  }

  /** v is a whole multiple of the step. */
  ghost predicate OnGrid(v: real, step: real) {
    exists k: int :: v == Multiple(k, step)
  }

  /**
   * r is where `floor(v / res) * res` puts v: a multiple of res at most one step below v,
   * or, for a negative res, at most one step above it.
   */
  ghost predicate FloorSnapped(v: real, r: real, res: real) {
    OnGrid(r, res) && (res > 0.0 ==> v - res < r <= v) && (res < 0.0 ==> v <= r < v - res)
  }

  /**
   * r is where `ceil(v / res) * res` puts v: a multiple of res at most one step above v,
   * or, for a negative res, at most one step below it.
   */
  ghost predicate CeilSnapped(v: real, r: real, res: real) {
    OnGrid(r, res) && (res > 0.0 ==> v <= r < v + res) && (res < 0.0 ==> v + res < r <= v)
  }

  /** `math.floor(v / res) * res`. */
  function SnapDown(v: real, res: real): (r: real)
    requires res != 0.0
    ensures FloorSnapped(v, r, res)
  {
    SnapDownBounds(v, res);
    Multiple(Floor(v / res), res)
  }

  /** `math.ceil(v / res) * res`. */
  function SnapUp(v: real, res: real): (r: real)
    requires res != 0.0
    ensures CeilSnapped(v, r, res)
  {
    SnapUpBounds(v, res);
    Multiple(Ceil(v / res), res)
  }

  /**
   * `snap_to_grid`: each minimum goes to the multiple of the resolution at or below it and each
   * maximum to the one at or above it (the other way round for a negative resolution); a zero
   * resolution raises at the first division.
   */
  function SnapToGrid(xmin: real, ymin: real, xmax: real, ymax: real, resolution: real): (r: Result<Box>)
    ensures r.Err? <==> resolution == 0.0
    ensures r.Err? ==> r.error == FLOAT_DIVISION_BY_ZERO
    ensures r.Ok? ==> FloorSnapped(xmin, r.value.xmin, resolution) && FloorSnapped(ymin, r.value.ymin, resolution)
    ensures r.Ok? ==> CeilSnapped(xmax, r.value.xmax, resolution) && CeilSnapped(ymax, r.value.ymax, resolution)
  {
    if resolution == 0.0 then Err(FLOAT_DIVISION_BY_ZERO)
    else
      Ok(Box(SnapDown(xmin, resolution), SnapDown(ymin, resolution),
             SnapUp(xmax, resolution), SnapUp(ymax, resolution)))
  }

  lemma SnapDownBounds(v: real, res: real)
    requires res != 0.0
    ensures res > 0.0 ==> v - res < Floor(v / res) as real * res <= v
    ensures res < 0.0 ==> v <= Floor(v / res) as real * res < v - res
  {
    DivMulCancel(v, res);
    if res > 0.0 {
      FloorScaledPos(v / res, Floor(v / res) as real, res, v);
    } else {
      FloorScaledNeg(v / res, Floor(v / res) as real, res, v);
    }
  }

  lemma SnapUpBounds(v: real, res: real)
    requires res != 0.0
    ensures res > 0.0 ==> v <= Ceil(v / res) as real * res < v + res
    ensures res < 0.0 ==> v + res < Ceil(v / res) as real * res <= v
  {
    DivMulCancel(v, res);
    if res > 0.0 {
      CeilScaledPos(v / res, Ceil(v / res) as real, res, v);
    } else {
      CeilScaledNeg(v / res, Ceil(v / res) as real, res, v);
    }
  }

  /** f <= q < f + 1 scaled by a positive step. */
  lemma FloorScaledPos(q: real, f: real, res: real, v: real)
    requires res > 0.0 && q * res == v && f <= q < f + 1.0
    ensures v - res < f * res <= v
  {
    ScaledLe(f, q, res, v);
    ScaledLtStep(q, f, res, v);
  }

  /** f <= q < f + 1 scaled by a negative step. */
  lemma FloorScaledNeg(q: real, f: real, res: real, v: real)
    requires res < 0.0 && q * res == v && f <= q < f + 1.0
    ensures v <= f * res < v - res
  {
    ScaledLeNeg(f, q, res, v);
    ScaledLtStepNeg(q, f, res, v);
  }

  /** c - 1 < q <= c scaled by a positive step. */
  lemma CeilScaledPos(q: real, c: real, res: real, v: real)
    requires res > 0.0 && q * res == v && c - 1.0 < q <= c
    ensures v <= c * res < v + res
  {
    ScaledGe(q, c, res, v);
    ScaledGtStep(q, c - 1.0, res, v);
  }

  /** c - 1 < q <= c scaled by a negative step. */
  lemma CeilScaledNeg(q: real, c: real, res: real, v: real)
    requires res < 0.0 && q * res == v && c - 1.0 < q <= c
    ensures v + res < c * res <= v
  {
    ScaledGeNeg(q, c, res, v);
    ScaledGtStepNeg(q, c - 1.0, res, v);
  }

  /** a <= b and b * t == v give a * t <= v, for t > 0. */
  lemma ScaledLe(a: real, b: real, t: real, v: real)
    requires t > 0.0 && a <= b && b * t == v
    ensures a * t <= v
  {
    MulLeMono(a, b, t);
  }

  /** a <= b and a * t == v give v <= b * t, for t > 0. */
  lemma ScaledGe(a: real, b: real, t: real, v: real)
    requires t > 0.0 && a <= b && a * t == v
    ensures v <= b * t
  {
    MulLeMono(a, b, t);
  }

  /** a < b + 1 and a * t == v give v < b * t + t, for t > 0. */
  lemma ScaledLtStep(a: real, b: real, t: real, v: real)
    requires t > 0.0 && a < b + 1.0 && a * t == v
    ensures v < b * t + t
  {
    MulLtMono(a, b + 1.0, t);
    AddOneMul(b, t);
  }

  /** a <= b and b * t == v give v <= a * t, for t < 0. */
  lemma ScaledLeNeg(a: real, b: real, t: real, v: real)
    requires t < 0.0 && a <= b && b * t == v
    ensures v <= a * t
  {
    MulLeAnti(a, b, t);
  }

  /** a <= b and a * t == v give b * t <= v, for t < 0. */
  lemma ScaledGeNeg(a: real, b: real, t: real, v: real)
    requires t < 0.0 && a <= b && a * t == v
    ensures b * t <= v
  {
    MulLeAnti(a, b, t);
  }

  /** a < b + 1 and a * t == v give b * t + t < v, for t < 0. */
  lemma ScaledLtStepNeg(a: real, b: real, t: real, v: real)
    requires t < 0.0 && a < b + 1.0 && a * t == v
    ensures b * t + t < v
  {
    MulLtAnti(a, b + 1.0, t);
    AddOneMul(b, t);
  }

  /** b < a and a * t == v give v < b * t, for t < 0. */
  lemma ScaledGtStepNeg(a: real, b: real, t: real, v: real)
    requires t < 0.0 && b < a && a * t == v
    ensures v < b * t
  {
    MulLtAnti(b, a, t);
  }

  /** b < a and a * t == v give b * t < v, for t > 0. */
  lemma ScaledGtStep(a: real, b: real, t: real, v: real)
    requires t > 0.0 && b < a && a * t == v
    ensures b * t < v
  {
    MulLtMono(b, a, t);
  }

  /** Two multiples of a step that lie less than one step apart are equal. */
  lemma OnGridUnique(a: real, b: real, step: real)
    requires step != 0.0 && OnGrid(a, step) && OnGrid(b, step)
    requires a - b < Abs(step) && b - a < Abs(step)
    ensures a == b
  {
    var k :| a == Multiple(k, step);
    var j :| b == Multiple(j, step);
    SubMul(k as real, j as real, step);
    if step > 0.0 {
      SmallMultiple(k - j, step, a - b);
    } else {
      NegMul((k - j) as real, step);
      SmallMultiple(j - k, -step, a - b);
    }
  }

  /** The only integer multiple of a positive t strictly between -t and t is 0. */
  lemma SmallMultiple(d: int, t: real, x: real)
    requires t > 0.0 && x == d as real * t && -t < x < t
    ensures d == 0
  {
    if d >= 1 {
      MulLeMono(1.0, d as real, t);
    } else if d <= -1 {
      MulLeMono(d as real, -1.0, t);
    }
  }

  /**
   * Snapping is determined by its promise: the only box whose edges are multiples of the
   * resolution and lie within one step as `snap_to_grid` promises is the snapped box.
   */
  lemma SnapToGridUnique(xmin: real, ymin: real, xmax: real, ymax: real, resolution: real, b: Box)
    requires resolution != 0.0
    requires FloorSnapped(xmin, b.xmin, resolution) && FloorSnapped(ymin, b.ymin, resolution)
    requires CeilSnapped(xmax, b.xmax, resolution) && CeilSnapped(ymax, b.ymax, resolution)
    ensures SnapToGrid(xmin, ymin, xmax, ymax, resolution) == Ok(b)
  {
    var r := SnapToGrid(xmin, ymin, xmax, ymax, resolution).value;
    OnGridUnique(r.xmin, b.xmin, resolution);
    OnGridUnique(r.ymin, b.ymin, resolution);
    OnGridUnique(r.xmax, b.xmax, resolution);
    OnGridUnique(r.ymax, b.ymax, resolution);
  }

  /** After snapping, the raster sizes are exact whole numbers of pixels: the rounding loses nothing. */
  lemma SnappedSizesExact(xmin: real, ymin: real, xmax: real, ymax: real, resolution: real)
    requires resolution != 0.0
    ensures var s := RoiToStartAndSize(SnapToGrid(xmin, ymin, xmax, ymax, resolution).value, resolution).value;
            s.xsize == Ceil(xmax / resolution) - Floor(xmin / resolution) &&
            s.ysize == Ceil(ymax / resolution) - Floor(ymin / resolution)
  {
    SnappedExtent(xmin, xmax, resolution);
    SnappedExtent(ymin, ymax, resolution);
  }

  /** One axis of `SnappedSizesExact`. */
  lemma SnappedExtent(lo: real, hi: real, res: real)
    requires res != 0.0
    ensures RoundHalfEven((SnapUp(hi, res) - SnapDown(lo, res)) / res) == Ceil(hi / res) - Floor(lo / res)
  {
    var c, f := Ceil(hi / res), Floor(lo / res);
    assert SnapUp(hi, res) - SnapDown(lo, res) == Multiple(c, res) - Multiple(f, res);
    WholeExtent(c, f, res);
  }

  /** An extent of a whole number of pixels rounds to itself. */
  lemma WholeExtent(c: int, f: int, res: real)
    requires res != 0.0
    ensures RoundHalfEven((Multiple(c, res) - Multiple(f, res)) / res) == c - f
  {
    var e := (Multiple(c, res) - Multiple(f, res)) / res;
    SubMul(c as real, f as real, res);
    assert c as real * res - f as real * res == (c as real - f as real) * res;
    assert c as real - f as real == (c - f) as real;
    MulDivCancel((c - f) as real, res);
    assert e == (c - f) as real;
    RoundOfInt(c - f);
    assert RoundHalfEven((c - f) as real) == c - f;
  }
}
