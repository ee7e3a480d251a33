/**
 * The bicubic epipolar resampling application, cars/applications/resampling/bicubic_resampling.py:
 * its configuration defaults, the tiling computed by `pre_run` (a split list and a corner grid
 * over the whole epipolar image, with the same tile size), the zero margins `run` falls back
 * to, and the task grid of `run`, one two-output resampling task per tile.
 */
module BicubicResampling {
  import opened Wrappers
  import opened PyValue
  import opened Tiling
  import opened SequentialCluster

  // ---------------------------------------------------------------------------------------
  // check_conf

  /** The defaults of `check_conf`, in the order it sets them. */
  const BICUBIC_DEFAULTS: Dict := [
    ("method", StrObj("bicubic")),
    ("epi_tile_size", IntObj(500)),
    ("save_epipolar_image", BoolObj(false)),
    ("save_epipolar_color", BoolObj(false))
  ]

  /** `check_conf`, without the schema validation. */
  function CheckConf(conf: Option<Dict>): (r: Dict)
    ensures conf.Some? ==> Keys(conf.value) <= Keys(r)
    ensures forall k :: k in Keys(BICUBIC_DEFAULTS) ==> k in Keys(r)
  {
    Overload(conf, BICUBIC_DEFAULTS)
  }

  lemma BicubicDefaultsUnique()
    ensures UniqueKeys(BICUBIC_DEFAULTS)
  {
    assert DistinctKeys(BICUBIC_DEFAULTS);
    DistinctKeysUnique(BICUBIC_DEFAULTS);
  }

  /**
   * A parameter the user leaves out gets its default: method "bicubic", tiles of 500 pixels,
   * neither the epipolar image nor its color saved.
   */
  lemma CheckConfDefault(conf: Option<Dict>, i: int)
    requires 0 <= i < |BICUBIC_DEFAULTS|
    requires conf.Some? ==> BICUBIC_DEFAULTS[i].0 !in Keys(conf.value)
    ensures Get(CheckConf(conf), BICUBIC_DEFAULTS[i].0) == Some(BICUBIC_DEFAULTS[i].1)
  {
    BicubicDefaultsUnique();
    OverloadDefaultAt(conf, BICUBIC_DEFAULTS, i);
  }

  /** A parameter the user gives is kept as given. */
  lemma CheckConfKeepsGiven(conf: Dict, k: string)
    requires k in Keys(conf)
    ensures Get(CheckConf(Some(conf)), k) == Get(conf, k)
  {
    BicubicDefaultsUnique();
    OverloadKeepsGiven(conf, BICUBIC_DEFAULTS, k);
  }

  // ---------------------------------------------------------------------------------------
  // pre_run

  /** The tile size of `pre_run`: the optimum when one is given, the configured size otherwise. */
  function OptTileSize(epiTileSize: int, optimumTileSize: Option<int>): int {
    if optimumTileSize.None? then epiTileSize else optimumTileSize.value
  }

  /** The box between corner [j, i] of a grid and the corner diagonally after it. */
  function GridCell(g: array2<Point>, i: int, j: int): Box
    requires 0 <= j < g.Length0 - 1 && 0 <= i < g.Length1 - 1
    reads g
  {
    Box(g[j, i].x, g[j, i].y, g[j + 1, i + 1].x, g[j + 1, i + 1].y)
  }

  /** Split region (i, j) of the whole image is the box between grid corners [j, i] and [j + 1, i + 1]. */
  lemma PreRunCell(sx: real, sy: real, tileSize: int, i: int, j: int)
    requires tileSize > 0 && 0.0 <= sx && 0.0 <= sy
    requires 0 <= i < NbSplits(0.0, sx, tileSize) && 0 <= j < NbSplits(0.0, sy, tileSize)
    ensures var ny := NbSplits(0.0, sy, tileSize);
            var cells := SplitCells(0.0, 0.0, sx, sy, tileSize, tileSize, NbSplits(0.0, sx, tileSize), ny);
            var lo := GridCorner(0.0, 0.0, sx, sy, tileSize, tileSize, j, i);
            var hi := GridCorner(0.0, 0.0, sx, sy, tileSize, tileSize, j + 1, i + 1);
            0 <= i * ny + j < |cells| && cells[i * ny + j] == Box(lo.x, lo.y, hi.x, hi.y) && !IsEmpty(cells[i * ny + j])
  {
    SplitCellsAt(0.0, 0.0, sx, sy, tileSize, tileSize, NbSplits(0.0, sx, tileSize), NbSplits(0.0, sy, tileSize), i, j);
    SplitMatchesGrid(0.0, 0.0, sx, sy, tileSize, tileSize, i, j);
  }

  /**
   * Region i * ny + j of the list (ny rows of cells) is the non-empty box between grid corners
   * [j, i] and [j + 1, i + 1].
   */
  ghost predicate RegionsMatchGrid(regions: seq<Box>, g: array2<Point>)
    reads g
  {
    g.Length0 >= 1 && g.Length1 >= 1
    && |regions| == (g.Length1 - 1) * (g.Length0 - 1)
    && forall i, j {:trigger GridCell(g, i, j)} :: 0 <= i < g.Length1 - 1 && 0 <= j < g.Length0 - 1 ==>
         0 <= i * (g.Length0 - 1) + j < |regions|
         && regions[i * (g.Length0 - 1) + j] == GridCell(g, i, j)
         && !IsEmpty(GridCell(g, i, j))
  }

  /** The split list and the grid of one image and one tile size match cell for cell. */
  lemma PreRunMatchesGrid(sx: real, sy: real, tileSize: int, regions: seq<Box>, g: array2<Point>)
    requires tileSize > 0 && 0.0 <= sx && 0.0 <= sy
    requires regions == SplitCells(0.0, 0.0, sx, sy, tileSize, tileSize, NbSplits(0.0, sx, tileSize), NbSplits(0.0, sy, tileSize))
    requires g.Length0 == NbSplits(0.0, sy, tileSize) + 1 && g.Length1 == NbSplits(0.0, sx, tileSize) + 1
    requires forall j, i :: 0 <= j < g.Length0 && 0 <= i < g.Length1 ==>
               g[j, i] == GridCorner(0.0, 0.0, sx, sy, tileSize, tileSize, j, i)
    ensures RegionsMatchGrid(regions, g)
  {
    var nx, ny := NbSplits(0.0, sx, tileSize), NbSplits(0.0, sy, tileSize);
    NbSplitsNonNegative(0.0, sx, tileSize);
    NbSplitsNonNegative(0.0, sy, tileSize);
    assert |regions| == nx * ny by {
      if nx == 0 {
        assert nx * ny == 0;
      }
    }
    forall i, j | 0 <= i < nx && 0 <= j < ny
      ensures 0 <= i * ny + j < |regions| && regions[i * ny + j] == GridCell(g, i, j)
      ensures !IsEmpty(GridCell(g, i, j))
    {
      PreRunCell(sx, sy, tileSize, i, j);
    }
  }

  /**
   * `pre_run`: the largest epipolar region is the whole image [0, 0, size_x, size_y]; `split`
   * and `grid` cut it with the same tile size, so the split list has one region per grid cell,
   * region i * ny + j (ny rows of cells) being the non-empty box between grid corners [j, i]
   * and [j + 1, i + 1].
   */
  method PreRun(epipolarSizeX: nat, epipolarSizeY: nat, epiTileSize: int, optimumTileSize: Option<int>)
    returns (regionsGrid: array2<Point>, regions: seq<Box>, tileSize: int, largest: Box)
    requires OptTileSize(epiTileSize, optimumTileSize) > 0
    ensures largest == Box(0.0, 0.0, epipolarSizeX as real, epipolarSizeY as real)
    ensures optimumTileSize.None? ==> tileSize == epiTileSize
    ensures optimumTileSize.Some? ==> tileSize == optimumTileSize.value
    ensures var sx, sy := epipolarSizeX as real, epipolarSizeY as real;
            regions == SplitCells(0.0, 0.0, sx, sy, tileSize, tileSize, NbSplits(0.0, sx, tileSize), NbSplits(0.0, sy, tileSize))
    ensures regionsGrid.Length0 == NbSplits(0.0, epipolarSizeY as real, tileSize) + 1
    ensures regionsGrid.Length1 == NbSplits(0.0, epipolarSizeX as real, tileSize) + 1
    ensures forall j, i :: 0 <= j < regionsGrid.Length0 && 0 <= i < regionsGrid.Length1 ==>
              regionsGrid[j, i] == GridCorner(0.0, 0.0, epipolarSizeX as real, epipolarSizeY as real, tileSize, tileSize, j, i)
    ensures RegionsMatchGrid(regions, regionsGrid)
  {
    largest := Box(0.0, 0.0, epipolarSizeX as real, epipolarSizeY as real);
    tileSize := OptTileSize(epiTileSize, optimumTileSize);
    var sx, sy := epipolarSizeX as real, epipolarSizeY as real;
    regions := Split(0.0, 0.0, sx, sy, tileSize, tileSize);
    regionsGrid := Grid(0.0, 0.0, sx, sy, tileSize, tileSize);
    PreRunMatchesGrid(sx, sy, tileSize, regions, regionsGrid);
  }

  // ---------------------------------------------------------------------------------------
  // run

  /** The margins dataset: a left and a right margin, each over [left, up, right, down]. */
  datatype MarginArrays = MarginArrays(left: seq<real>, right: seq<real>)

  /** The margins `run` uses: the given ones, or zero on every side of both images. */
  function RunMargins(margins: Option<MarginArrays>): (m: MarginArrays)
    ensures margins.Some? ==> m == margins.value
    ensures margins.None? ==> |m.left| == 4 && |m.right| == 4
                              && forall k :: 0 <= k < 4 ==> m.left[k] == 0.0 && m.right[k] == 0.0
  {
    if margins.Some? then margins.value
    else MarginArrays([0.0, 0.0, 0.0, 0.0], [0.0, 0.0, 0.0, 0.0])
  }

  /** The call given to `generate_epipolar_images_wrapper` for one tile. */
  datatype ResampleCall<W> = GenerateEpipolarImages(leftOverlap: W, rightOverlap: W, leftWindow: W, margins: MarginArrays)

  /** The call of tile (row, col): its two overlaps, its window and the margins. */
  function TileCall<W>(leftOverlaps: array2<W>, rightOverlaps: array2<W>, tilingGrid: array2<W>, margins: MarginArrays,
                       row: int, col: int): ResampleCall<W>
    requires 0 <= row < tilingGrid.Length0 && 0 <= col < tilingGrid.Length1
    requires rightOverlaps.Length0 == leftOverlaps.Length0 == tilingGrid.Length0
    requires rightOverlaps.Length1 == leftOverlaps.Length1 == tilingGrid.Length1
    reads leftOverlaps, rightOverlaps, tilingGrid
  {
    GenerateEpipolarImages(leftOverlaps[row, col], rightOverlaps[row, col], tilingGrid[row, col], margins)
  }

  /**
   * The task loop of `run`, column by column and row by row over the left images' shape: tile
   * (row, col) of the left and right epipolar images become outputs 0 and 1 of one resampling
   * task on that tile's overlaps, its window in the tiling grid and the margins. The left and
   * right overlaps and the tiling grid share one shape, as `run` builds them from one grid.
   */
  method PlanResamplingTasks<W>(leftOverlaps: array2<W>, rightOverlaps: array2<W>, tilingGrid: array2<W>, margins: MarginArrays)
    returns (leftImages: array2<Option<Delayed<ResampleCall<W>>>>, rightImages: array2<Option<Delayed<ResampleCall<W>>>>)
    requires rightOverlaps.Length0 == leftOverlaps.Length0 == tilingGrid.Length0
    requires rightOverlaps.Length1 == leftOverlaps.Length1 == tilingGrid.Length1
    ensures fresh(leftImages) && fresh(rightImages)
    ensures leftImages.Length0 == rightImages.Length0 == tilingGrid.Length0
    ensures leftImages.Length1 == rightImages.Length1 == tilingGrid.Length1
    ensures forall row, col :: 0 <= row < tilingGrid.Length0 && 0 <= col < tilingGrid.Length1 ==>
              leftImages[row, col] == Some(Output(TileCall(leftOverlaps, rightOverlaps, tilingGrid, margins, row, col), 0))
              && rightImages[row, col] == Some(Output(TileCall(leftOverlaps, rightOverlaps, tilingGrid, margins, row, col), 1))
  {
    var nrows, ncols := tilingGrid.Length0, tilingGrid.Length1;
    leftImages := new Option<Delayed<ResampleCall<W>>>[nrows, ncols]((_, _) => None);
    rightImages := new Option<Delayed<ResampleCall<W>>>[nrows, ncols]((_, _) => None);
    for col := 0 to ncols
      invariant forall r, c :: 0 <= r < nrows && 0 <= c < ncols ==>
                  leftImages[r, c] == (if c < col then Some(Output(TileCall(leftOverlaps, rightOverlaps, tilingGrid, margins, r, c), 0)) else None)
                  && rightImages[r, c] == (if c < col then Some(Output(TileCall(leftOverlaps, rightOverlaps, tilingGrid, margins, r, c), 1)) else None)
    {
      for row := 0 to nrows
        invariant forall r, c :: 0 <= r < nrows && 0 <= c < ncols ==>
                    var done := c < col || (c == col && r < row);
                    leftImages[r, c] == (if done then Some(Output(TileCall(leftOverlaps, rightOverlaps, tilingGrid, margins, r, c), 0)) else None)
                    && rightImages[r, c] == (if done then Some(Output(TileCall(leftOverlaps, rightOverlaps, tilingGrid, margins, r, c), 1)) else None)
      {
        var call := CreateTask(GenerateEpipolarImages(leftOverlaps[row, col], rightOverlaps[row, col], tilingGrid[row, col], margins), 2);
        leftImages[row, col] := Some(Output(call, 0));
        rightImages[row, col] := Some(Output(call, 1));
      }
    }
  }
}
