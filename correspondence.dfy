/**
 * Terrain <-> epipolar tile selection of cars/core/tiling.py: the edge-simplex filter, the
 * per-query-point fallback between a Delaunay simplex and a nearest neighbour, and the
 * selection of the epipolar tiles that a terrain cell needs.
 *
 * The Delaunay triangulation, the point-location search and the nearest-neighbour search
 * are foreign computations: the model takes their results as inputs (a list of simplices,
 * a simplex index or -1 per query point, a grid-point index per query point).
 */
module Correspondence {
  import opened Arith
  import opened Tiling

  // ---------------------------------------------------------------------------
  // filter_simplices_on_the_edges

  /** A triangle of the Delaunay triangulation, by the flat indices of its three grid points. */
  datatype Simplex = Simplex(v0: int, v1: int, v2: int)

  /** The four sides of the grid, in the order of the `edges` stack: left, bottom, right, top. */
  const SIDES: int := 4

  /**
   * Grid point v (row-major flat index in an nrows x ncols grid) lies on side `side`:
   * 0 the first column, 1 the last row, 2 the last column, 3 the first row.
   */
  predicate OnSide(v: int, side: int, nrows: int, ncols: int)
    requires ncols > 0
  {
    var row, col := v / ncols, v % ncols;
    if side == 0 then col == 0
    else if side == 1 then row == nrows - 1
    else if side == 2 then col == ncols - 1
    else row == 0
  }

  /** The sum of the side flags of the three vertices is 3. */
  predicate AllOnSide(t: Simplex, side: int, nrows: int, ncols: int)
    requires ncols > 0
  {
    OnSide(t.v0, side, nrows, ncols) && OnSide(t.v1, side, nrows, ncols) && OnSide(t.v2, side, nrows, ncols)
  }

  /** All three vertices lie on one of the sides 0 .. n - 1. */
  predicate OnOneOfFirstSides(t: Simplex, n: int, nrows: int, ncols: int)
    requires ncols > 0
  {
    exists side :: 0 <= side < n && AllOnSide(t, side, nrows, ncols)
  }

  /** A well-formed triangulation of an nrows x ncols grid. */
  predicate ValidTriangulation(tri: seq<Simplex>, nrows: int, ncols: int) {
    nrows > 0 && ncols > 0 && |tri| > 0 &&
    forall k :: 0 <= k < |tri| ==>
      0 <= tri[k].v0 < nrows * ncols && 0 <= tri[k].v1 < nrows * ncols && 0 <= tri[k].v2 < nrows * ncols
  }

  /** A point-location result: -1 (outside every simplex) or a simplex index. */
  predicate ValidSearch(s: int, tri: seq<Simplex>) {
    -1 <= s < |tri|
  }

  /** A search result after the passes over the sides 0 .. n - 1. */
  function FilteredUpTo(s: int, n: int, tri: seq<Simplex>, nrows: int, ncols: int): int
    requires ncols > 0 && ValidSearch(s, tri)
  {
    if s != -1 && OnOneOfFirstSides(tri[s], n, nrows, ncols) then -1 else s
  }

  /** A search result after `filter_simplices_on_the_edges`. */
  function Filtered(s: int, tri: seq<Simplex>, nrows: int, ncols: int): (r: int)
    requires ncols > 0 && ValidSearch(s, tri)
    ensures r == s || r == -1
    ensures s == -1 ==> r == -1
  {
    FilteredUpTo(s, SIDES, tri, nrows, ncols)
  }

  /**
   * `filter_simplices_on_the_edges`: one pass per side; each pass flags the simplices whose
   * three vertices are all on that side and overwrites with -1 every entry whose simplex is
   * flagged. An entry -1 reads the flag of the last simplex, as numpy's index -1 does, and
   * stays -1 whatever that flag is.
   */
  method FilterSimplicesOnTheEdges(nrows: int, ncols: int, tri: seq<Simplex>, simplices: array<int>)
    requires ValidTriangulation(tri, nrows, ncols)
    requires forall k :: 0 <= k < simplices.Length ==> ValidSearch(simplices[k], tri)
    modifies simplices
    ensures forall k :: 0 <= k < simplices.Length ==>
              ValidSearch(old(simplices[k]), tri) &&
              simplices[k] == Filtered(old(simplices[k]), tri, nrows, ncols)
  {
    for side := 0 to SIDES
      invariant forall k :: 0 <= k < simplices.Length ==>
                  ValidSearch(old(simplices[k]), tri) &&
                  simplices[k] == FilteredUpTo(old(simplices[k]), side, tri, nrows, ncols)
    {
      var flags := seq(|tri|, t requires 0 <= t < |tri| => AllOnSide(tri[t], side, nrows, ncols));
      for k := 0 to simplices.Length
        invariant forall k' :: 0 <= k' < simplices.Length ==> ValidSearch(old(simplices[k']), tri)
        invariant forall k' :: 0 <= k' < k ==>
                    simplices[k'] == FilteredUpTo(old(simplices[k']), side + 1, tri, nrows, ncols)
        invariant forall k' :: k <= k' < simplices.Length ==>
                    simplices[k'] == FilteredUpTo(old(simplices[k']), side, tri, nrows, ncols)
      {
        var s := simplices[k];
        var flag := if s == -1 then flags[|tri| - 1] else flags[s];
        FilteredStep(old(simplices[k]), side, tri, nrows, ncols);
        if flag {
          simplices[k] := -1;
        }
      }
    }
  }

  /** One pass: an entry still standing is dropped exactly when its simplex lies on the next side. */
  lemma FilteredStep(s: int, side: int, tri: seq<Simplex>, nrows: int, ncols: int)
    requires ncols > 0 && ValidSearch(s, tri) && side >= 0
    ensures var cur := FilteredUpTo(s, side, tri, nrows, ncols);
            FilteredUpTo(s, side + 1, tri, nrows, ncols)
            == if cur != -1 && AllOnSide(tri[cur], side, nrows, ncols) then -1 else cur
  {
    if s != -1 && OnOneOfFirstSides(tri[s], side, nrows, ncols) {
      var w :| 0 <= w < side && AllOnSide(tri[s], w, nrows, ncols);
      assert 0 <= w < side + 1 && AllOnSide(tri[s], w, nrows, ncols);
    } else if s != -1 && OnOneOfFirstSides(tri[s], side + 1, nrows, ncols) {
      var w :| 0 <= w < side + 1 && AllOnSide(tri[s], w, nrows, ncols);
      assert w == side;
    }
  }

  /**
   * An entry becomes -1 exactly when it was -1 or its three vertices all lie on the same one
   * of the four sides; otherwise it is unchanged.
   */
  lemma FilteredMeaning(s: int, tri: seq<Simplex>, nrows: int, ncols: int)
    requires ncols > 0 && ValidSearch(s, tri)
    ensures Filtered(s, tri, nrows, ncols) == -1 <==>
            s == -1 ||
            AllOnSide(tri[s], 0, nrows, ncols) || AllOnSide(tri[s], 1, nrows, ncols) ||
            AllOnSide(tri[s], 2, nrows, ncols) || AllOnSide(tri[s], 3, nrows, ncols)
    ensures Filtered(s, tri, nrows, ncols) == s || Filtered(s, tri, nrows, ncols) == -1
  {
    if s != -1 && OnOneOfFirstSides(tri[s], SIDES, nrows, ncols) {
      var w :| 0 <= w < SIDES && AllOnSide(tri[s], w, nrows, ncols);
      assert w == 0 || w == 1 || w == 2 || w == 3;
    } else if s != -1 {
      assert !AllOnSide(tri[s], 0, nrows, ncols);
      assert !AllOnSide(tri[s], 1, nrows, ncols);
      assert !AllOnSide(tri[s], 2, nrows, ncols);
      assert !AllOnSide(tri[s], 3, nrows, ncols);
    }
  }

  /** Filtering a filtered result changes nothing more. */
  lemma FilteredIdempotent(s: int, tri: seq<Simplex>, nrows: int, ncols: int)
    requires ncols > 0 && ValidSearch(s, tri)
    ensures Filtered(Filtered(s, tri, nrows, ncols), tri, nrows, ncols) == Filtered(s, tri, nrows, ncols)
  {
  }

  /**
   * In a 3 x 3 grid, the corner triangle on points 0, 1 and 3 has all its vertices on the
   * boundary (0 and 1 on the first row, 0 and 3 on the first column), yet no single side holds
   * all three, so the filter keeps it.
   */
  lemma CornerSimplexKept()
    ensures Filtered(0, [Simplex(0, 1, 3)], 3, 3) == 0
  {
    var t := Simplex(0, 1, 3);
    assert !OnSide(1, 0, 3, 3) && !OnSide(0, 1, 3, 3) && !OnSide(0, 2, 3, 3) && !OnSide(3, 3, 3, 3);
    assert !AllOnSide(t, 0, 3, 3) && !AllOnSide(t, 1, 3, 3) && !AllOnSide(t, 2, 3, 3) && !AllOnSide(t, 3, 3, 3);
    FilteredMeaning(0, [t], 3, 3);
  }

  // ---------------------------------------------------------------------------
  // terrain_grid_to_epipolar: candidate selection and min / max

  function MinPoint(a: Point, b: Point): Point {
    Point(Min(a.x, b.x), Min(a.y, b.y))
  }

  function MaxPoint(a: Point, b: Point): Point {
    Point(Max(a.x, b.x), Max(a.y, b.y))
  }

  /** a <= b on both components. */
  predicate Below(a: Point, b: Point) {
    a.x <= b.x && a.y <= b.y
  }

  /** The simplex index a search result reads: numpy's -1 is the last simplex. */
  function SimplexAt(tri: seq<Simplex>, s: int): Simplex
    requires |tri| > 0 && ValidSearch(s, tri)
  {
    if s == -1 then tri[|tri| - 1] else tri[s]
  }

  /** The candidate pair (min over the simplex, max over the simplex) or the nearest neighbour twice. */
  datatype Candidates = Candidates(lo: Point, hi: Point)

  /** `np.where(s != -1, simplex min / max, nearest neighbour)` for one query point. */
  function SelectCandidates(flat: seq<Point>, tri: seq<Simplex>, s: int, nn: int): (c: Candidates)
    requires VerticesIn(tri, |flat|)
    requires ValidSearch(s, tri) && 0 <= nn < |flat|
    ensures Below(c.lo, c.hi)
    ensures s != -1 ==> var t := tri[s];
              Below(c.lo, flat[t.v0]) && Below(c.lo, flat[t.v1]) && Below(c.lo, flat[t.v2]) &&
              Below(flat[t.v0], c.hi) && Below(flat[t.v1], c.hi) && Below(flat[t.v2], c.hi)
    ensures s == -1 ==> c.lo == flat[nn] && c.hi == flat[nn]
  {
    var t := SimplexAt(tri, s);
    var a, b, d := flat[t.v0], flat[t.v1], flat[t.v2];
    if s != -1 then Candidates(MinPoint(MinPoint(a, b), d), MaxPoint(MaxPoint(a, b), d))
    else Candidates(flat[nn], flat[nn])
  }

  /** The epipolar envelope of one query point: min and max over the four candidates. */
  datatype Envelope = Envelope(pointsMin: Point, pointsMax: Point)

  function EnvelopeOf(forMin: Candidates, forMax: Candidates): (e: Envelope)
    ensures Below(forMin.lo, forMin.hi) && Below(forMax.lo, forMax.hi) ==> Below(e.pointsMin, e.pointsMax)
    ensures Below(e.pointsMin, forMin.lo) && Below(e.pointsMin, forMin.hi)
    ensures Below(e.pointsMin, forMax.lo) && Below(e.pointsMin, forMax.hi)
    ensures Below(forMin.lo, e.pointsMax) && Below(forMin.hi, e.pointsMax)
    ensures Below(forMax.lo, e.pointsMax) && Below(forMax.hi, e.pointsMax)
  {
    Envelope(MinPoint(MinPoint(MinPoint(forMin.lo, forMin.hi), forMax.lo), forMax.hi),
             MaxPoint(MaxPoint(MaxPoint(forMin.lo, forMin.hi), forMax.lo), forMax.hi))
  }

  /** The envelope is the least box holding the four candidates. */
  lemma EnvelopeIsLeast(forMin: Candidates, forMax: Candidates, lo: Point, hi: Point)
    requires Below(lo, forMin.lo) && Below(lo, forMin.hi) && Below(lo, forMax.lo) && Below(lo, forMax.hi)
    requires Below(forMin.lo, hi) && Below(forMin.hi, hi) && Below(forMax.lo, hi) && Below(forMax.hi, hi)
    ensures Below(lo, EnvelopeOf(forMin, forMax).pointsMin) && Below(EnvelopeOf(forMin, forMax).pointsMax, hi)
  {
  }

  /** The triangulation of a grid of `count` points, each vertex a valid flat index. */
  predicate VerticesIn(tri: seq<Simplex>, count: int) {
    |tri| > 0 && forall k :: 0 <= k < |tri| ==>
      0 <= tri[k].v0 < count && 0 <= tri[k].v1 < count && 0 <= tri[k].v2 < count
  }

  /**
   * The selection and min / max part of `terrain_grid_to_epipolar`. The flat grid holds the
   * epipolar positions of an nrows x ncols grid; `triMin` / `triMax` and the per-query searches
   * `sMin` / `sMax`, `nnMin` / `nnMax` are what the triangulations and trees returned.
   */
  method TerrainGridToEpipolar(flat: seq<Point>, nrows: int, ncols: int,
                               triMin: seq<Simplex>, triMax: seq<Simplex>,
                               sMin: seq<int>, sMax: seq<int>, nnMin: seq<int>, nnMax: seq<int>)
    returns (envelopes: seq<Envelope>)
    requires |flat| == nrows * ncols
    requires ValidTriangulation(triMin, nrows, ncols) && ValidTriangulation(triMax, nrows, ncols)
    requires |sMin| == |sMax| == |nnMin| == |nnMax|
    requires forall q :: 0 <= q < |sMin| ==> ValidSearch(sMin[q], triMin) && ValidSearch(sMax[q], triMax)
    requires forall q :: 0 <= q < |nnMin| ==> 0 <= nnMin[q] < |flat| && 0 <= nnMax[q] < |flat|
    ensures |envelopes| == |sMin|
    ensures forall q :: 0 <= q < |sMin| ==>
              ValidSearch(Filtered(sMin[q], triMin, nrows, ncols), triMin) &&
              ValidSearch(Filtered(sMax[q], triMax, nrows, ncols), triMax) &&
              envelopes[q] == EnvelopeOf(
                SelectCandidates(flat, triMin, Filtered(sMin[q], triMin, nrows, ncols), nnMin[q]),
                SelectCandidates(flat, triMax, Filtered(sMax[q], triMax, nrows, ncols), nnMax[q]))
    ensures forall q :: 0 <= q < |envelopes| ==> Below(envelopes[q].pointsMin, envelopes[q].pointsMax)
  {
    assert VerticesIn(triMin, |flat|) && VerticesIn(triMax, |flat|);
    var searchMin := new int[|sMin|](q requires 0 <= q < |sMin| => sMin[q]);
    var searchMax := new int[|sMax|](q requires 0 <= q < |sMax| => sMax[q]);
    FilterSimplicesOnTheEdges(nrows, ncols, triMin, searchMin);
    FilterSimplicesOnTheEdges(nrows, ncols, triMax, searchMax);
    envelopes := QueryEnvelopes(flat, triMin, triMax, searchMin[..], searchMax[..], nnMin, nnMax);
  }

  /** The envelope of each query point from its filtered simplex searches and nearest neighbours. */
  method QueryEnvelopes(flat: seq<Point>, triMin: seq<Simplex>, triMax: seq<Simplex>,
                        searchMin: seq<int>, searchMax: seq<int>, nnMin: seq<int>, nnMax: seq<int>)
    returns (envelopes: seq<Envelope>)
    requires VerticesIn(triMin, |flat|) && VerticesIn(triMax, |flat|)
    requires |searchMin| == |searchMax| == |nnMin| == |nnMax|
    requires forall q :: 0 <= q < |searchMin| ==> ValidSearch(searchMin[q], triMin) && ValidSearch(searchMax[q], triMax)
    requires forall q :: 0 <= q < |nnMin| ==> 0 <= nnMin[q] < |flat| && 0 <= nnMax[q] < |flat|
    ensures |envelopes| == |searchMin|
    ensures forall q :: 0 <= q < |searchMin| ==>
              envelopes[q] == EnvelopeOf(SelectCandidates(flat, triMin, searchMin[q], nnMin[q]),
                                         SelectCandidates(flat, triMax, searchMax[q], nnMax[q]))
  {
    envelopes := [];
    for q := 0 to |searchMin|
      invariant |envelopes| == q
      invariant forall q' :: 0 <= q' < q ==>
                  envelopes[q'] == EnvelopeOf(SelectCandidates(flat, triMin, searchMin[q'], nnMin[q']),
                                              SelectCandidates(flat, triMax, searchMax[q'], nnMax[q']))
    {
      var forMin := SelectCandidates(flat, triMin, searchMin[q], nnMin[q]);
      var forMax := SelectCandidates(flat, triMax, searchMax[q], nnMax[q]);
      envelopes := envelopes + [EnvelopeOf(forMin, forMax)];
    }
  }

  // ---------------------------------------------------------------------------
  // get_corresponding_tiles_row_col

  /** g is a rows x cols grid of points. */
  predicate IsGrid<T>(g: seq<seq<T>>, rows: int, cols: int) {
    |g| == rows && forall r :: 0 <= r < rows ==> |g[r]| == cols
  }

  /**
   * One stereo configuration as the zip of the four input lists sees it: the left and right
   * point-cloud tile matrices, the epipolar positions of the terrain grid for the minimum and
   * maximum disparity, and the attributes read from the left dataset.
   */
  datatype StereoPair<T> = StereoPair(
    left: seq<seq<T>>, right: seq<seq<T>>,
    pointsMin: seq<seq<Point>>, pointsMax: seq<seq<Point>>,
    largest: Box, tileSize: int,
    rows: int, cols: int)

  /** The shape facts the inputs carry: tile matrices match the tiling grid shape. */
  predicate ValidPair<T>(p: StereoPair<T>, gridRows: int, gridCols: int) {
    p.tileSize > 0 &&
    IsGrid(p.left, p.rows, p.cols) && IsGrid(p.right, p.rows, p.cols) &&
    IsGrid(p.pointsMin, gridRows, gridCols) && IsGrid(p.pointsMax, gridRows, gridCols)
  }

  /** The epipolar box of terrain cell (row, col): min and max over the eight corner samples. */
  function CellEnvelope(pmin: seq<seq<Point>>, pmax: seq<seq<Point>>, row: int, col: int): (r: Box)
    requires 0 <= row && row + 1 < |pmin| && row + 1 < |pmax|
    requires 0 <= col && col + 1 < |pmin[row]| && col + 1 < |pmin[row + 1]|
    requires col + 1 < |pmax[row]| && col + 1 < |pmax[row + 1]|
    ensures r.xmin <= r.xmax && r.ymin <= r.ymax
    ensures Holds(r, pmin[row][col]) && Holds(r, pmin[row + 1][col]) && Holds(r, pmin[row + 1][col + 1]) && Holds(r, pmin[row][col + 1])
    ensures Holds(r, pmax[row][col]) && Holds(r, pmax[row + 1][col]) && Holds(r, pmax[row + 1][col + 1]) && Holds(r, pmax[row][col + 1])
  {
    var j, i := row, col;
    CornerBox(pmin[j][i], pmin[j + 1][i], pmin[j + 1][i + 1], pmin[j][i + 1],
             pmax[j][i], pmax[j + 1][i], pmax[j + 1][i + 1], pmax[j][i + 1])
  }

  /** The box from the pairwise minimum to the pairwise maximum of eight points. */
  function CornerBox(a: Point, b: Point, c: Point, d: Point, e: Point, f: Point, g: Point, h: Point): Box {
    var lo := MinPoint(MinPoint(MinPoint(a, b), MinPoint(c, d)), MinPoint(MinPoint(e, f), MinPoint(g, h)));
    var hi := MaxPoint(MaxPoint(MaxPoint(a, b), MaxPoint(c, d)), MaxPoint(MaxPoint(e, f), MaxPoint(g, h)));
    Box(lo.x, lo.y, hi.x, hi.y)
  }

  /** The envelope holds the eight points, and any box holding them encloses it. */
  lemma CornerBoxBounds(a: Point, b: Point, c: Point, d: Point, e: Point, f: Point, g: Point, h: Point, bx: Box)
    ensures var env := CornerBox(a, b, c, d, e, f, g, h);
            Holds(env, a) && Holds(env, b) && Holds(env, c) && Holds(env, d) &&
            Holds(env, e) && Holds(env, f) && Holds(env, g) && Holds(env, h)
    ensures Holds(bx, a) && Holds(bx, b) && Holds(bx, c) && Holds(bx, d) &&
            Holds(bx, e) && Holds(bx, f) && Holds(bx, g) && Holds(bx, h)
            ==> Encloses(bx, CornerBox(a, b, c, d, e, f, g, h))
  {
  }

  /** b holds p. */
  predicate Holds(b: Box, p: Point) {
    b.xmin <= p.x <= b.xmax && b.ymin <= p.y <= b.ymax
  }

  /** The eight samples of terrain cell (row, col). */
  function CellSamples(pmin: seq<seq<Point>>, pmax: seq<seq<Point>>, row: int, col: int): seq<Point>
    requires 0 <= row && row + 1 < |pmin| && row + 1 < |pmax|
    requires 0 <= col && col + 1 < |pmin[row]| && col + 1 < |pmin[row + 1]|
    requires col + 1 < |pmax[row]| && col + 1 < |pmax[row + 1]|
  {
    [pmin[row][col], pmin[row + 1][col], pmin[row + 1][col + 1], pmin[row][col + 1],
     pmax[row][col], pmax[row + 1][col], pmax[row + 1][col + 1], pmax[row][col + 1]]
  }

  /** The cell envelope holds the eight samples and is the smallest box that does. */
  lemma CellEnvelopeIsBoundingBox(pmin: seq<seq<Point>>, pmax: seq<seq<Point>>, row: int, col: int, b: Box)
    requires 0 <= row && row + 1 < |pmin| && row + 1 < |pmax|
    requires 0 <= col && col + 1 < |pmin[row]| && col + 1 < |pmin[row + 1]|
    requires col + 1 < |pmax[row]| && col + 1 < |pmax[row + 1]|
    ensures forall k :: 0 <= k < 8 ==> Holds(CellEnvelope(pmin, pmax, row, col), CellSamples(pmin, pmax, row, col)[k])
    ensures (forall k :: 0 <= k < 8 ==> Holds(b, CellSamples(pmin, pmax, row, col)[k]))
            ==> Encloses(b, CellEnvelope(pmin, pmax, row, col))
  {
    var p := CellSamples(pmin, pmax, row, col);
    CornerBoxBounds(p[0], p[1], p[2], p[3], p[4], p[5], p[6], p[7], b);
    if forall k :: 0 <= k < 8 ==> Holds(b, p[k]) {
      assert Holds(b, p[0]) && Holds(b, p[1]) && Holds(b, p[2]) && Holds(b, p[3]);
      assert Holds(b, p[4]) && Holds(b, p[5]) && Holds(b, p[6]) && Holds(b, p[7]);
    }
  }

  /** One selected tile: the position of its stereo pair in the input lists and its tile indices. */
  datatype Selected = Selected(pair: int, idy: int, idx: int)

  /** The listed tiles whose indices fall inside a rows x cols tiling grid, in order. */
  function InGridTiles(tiles: seq<TileEntry>, rows: int, cols: int): seq<TileEntry> {
    if |tiles| == 0 then []
    else
      var last := tiles[|tiles| - 1];
      InGridTiles(tiles[..|tiles| - 1], rows, cols)
      + (if 0 <= last.idx < cols && 0 <= last.idy < rows then [last] else [])
  }

  /** The in-grid filter keeps exactly the entries with indices inside the grid. */
  lemma {:induction false} InGridTilesMembership(tiles: seq<TileEntry>, rows: int, cols: int, e: TileEntry)
    ensures e in InGridTiles(tiles, rows, cols) <==> e in tiles && 0 <= e.idx < cols && 0 <= e.idy < rows
  {
    if |tiles| > 0 {
      InGridTilesMembership(tiles[..|tiles| - 1], rows, cols, e);
      assert tiles == tiles[..|tiles| - 1] + [tiles[|tiles| - 1]];
    }
  }

  /** The epipolar region of terrain cell (row, col) for one pair, cropped to its largest region. */
  function PairRegion<T>(p: StereoPair<T>, gridRows: int, gridCols: int, row: int, col: int): Box
    requires ValidPair(p, gridRows, gridCols)
    requires 0 <= row && row + 1 < gridRows && 0 <= col && col + 1 < gridCols
  {
    Crop(CellEnvelope(p.pointsMin, p.pointsMax, row, col), p.largest)
  }

  /** The tiles one pair contributes: none when its region is empty, else the in-grid listed tiles. */
  function PairTiles<T>(p: StereoPair<T>, gridRows: int, gridCols: int, row: int, col: int): seq<TileEntry>
    requires ValidPair(p, gridRows, gridCols)
    requires 0 <= row && row + 1 < gridRows && 0 <= col && col + 1 < gridCols
  {
    var region := PairRegion(p, gridRows, gridCols, row, col);
    if IsEmpty(region) then []
    else InGridTiles(ListTilesSpec(region, p.largest, p.tileSize, 1), p.rows, p.cols)
  }

  function Tag(pair: int, tiles: seq<TileEntry>): (r: seq<Selected>)
    ensures |r| == |tiles|
    ensures forall k :: 0 <= k < |r| ==> r[k] == Selected(pair, tiles[k].idy, tiles[k].idx)
  {
    if |tiles| == 0 then [] else Tag(pair, tiles[..|tiles| - 1]) + [Selected(pair, tiles[|tiles| - 1].idy, tiles[|tiles| - 1].idx)]
  }

  predicate AllValid<T>(pairs: seq<StereoPair<T>>, gridRows: int, gridCols: int) {
    forall k :: 0 <= k < |pairs| ==> ValidPair(pairs[k], gridRows, gridCols)
  }

  /** Each block of tiles tagged with its position, the blocks concatenated in order. */
  function TagAll(blocks: seq<seq<TileEntry>>): (r: seq<Selected>)
    ensures forall k :: 0 <= k < |r| ==> 0 <= r[k].pair < |blocks|
  {
    if |blocks| == 0 then []
    else TagAll(blocks[..|blocks| - 1]) + Tag(|blocks| - 1, blocks[|blocks| - 1])
  }

  /** A tag names the block the selection came from. */
  lemma TagPair(pair: int, tiles: seq<TileEntry>, s: Selected)
    requires s in Tag(pair, tiles)
    ensures s.pair == pair
  {
  }

  /** A selection is in the concatenation exactly when it is in the block its tag names. */
  lemma {:induction false} TagAllMembership(blocks: seq<seq<TileEntry>>, s: Selected)
    ensures s in TagAll(blocks) <==> 0 <= s.pair < |blocks| && s in Tag(s.pair, blocks[s.pair])
  {
    if |blocks| > 0 {
      var m := |blocks| - 1;
      var front := blocks[..m];
      TagAllMembership(front, s);
      assert s in TagAll(blocks) <==> s in TagAll(front) || s in Tag(m, blocks[m]);
      if s in Tag(m, blocks[m]) {
        TagPair(m, blocks[m], s);
      }
      if 0 <= s.pair < m {
        assert front[s.pair] == blocks[s.pair];
      }
    }
  }

  /** The selections of the first n pairs, pair after pair. */
  function Selections<T>(pairs: seq<StereoPair<T>>, n: int, gridRows: int, gridCols: int, row: int, col: int)
    : (r: seq<Selected>)
    requires 0 <= n <= |pairs| && AllValid(pairs, gridRows, gridCols)
    requires 0 <= row && row + 1 < gridRows && 0 <= col && col + 1 < gridCols
    ensures forall k :: 0 <= k < |r| ==> 0 <= r[k].pair < n
  {
    TagAll(seq(n, k requires 0 <= k < n => PairTiles(pairs[k], gridRows, gridCols, row, col)))
  }

  /** One more pair appends its tagged tiles to the selections. */
  lemma SelectionsStep<T>(pairs: seq<StereoPair<T>>, n: int, gridRows: int, gridCols: int, row: int, col: int)
    requires 0 <= n < |pairs| && AllValid(pairs, gridRows, gridCols)
    requires 0 <= row && row + 1 < gridRows && 0 <= col && col + 1 < gridCols
    ensures Selections(pairs, n + 1, gridRows, gridCols, row, col)
            == Selections(pairs, n, gridRows, gridCols, row, col) + Tag(n, PairTiles(pairs[n], gridRows, gridCols, row, col))
  {
    var blocks := seq(n + 1, k requires 0 <= k < n + 1 => PairTiles(pairs[k], gridRows, gridCols, row, col));
    assert blocks[..n] == seq(n, k requires 0 <= k < n => PairTiles(pairs[k], gridRows, gridCols, row, col));
  }

  /** What `get_corresponding_tiles_row_col` returns. */
  datatype Correspondences<T> = Correspondences(
    terrainRegion: Box, requiredLeft: seq<T>, requiredRight: seq<T>, rank: int, indexes: seq<(int, int)>)

  /** `get_corresponding_tiles_row_col` for the cell at (row, col) of the terrain grid. */
  method GetCorrespondingTilesRowCol<T>(terrainGrid: seq<seq<Point>>, gridRows: int, gridCols: int,
                                        row: int, col: int, pairs: seq<StereoPair<T>>)
    returns (r: Correspondences<T>)
    requires IsGrid(terrainGrid, gridRows, gridCols)
    requires 0 <= row && row + 1 < gridRows && 0 <= col && col + 1 < gridCols
    requires AllValid(pairs, gridRows, gridCols)
    ensures r.terrainRegion == Box(terrainGrid[row][col].x, terrainGrid[row][col].y,
                                   terrainGrid[row + 1][col + 1].x, terrainGrid[row + 1][col + 1].y)
    ensures r.rank == col * col + row * row
    ensures SelectionsFit(pairs, Selections(pairs, |pairs|, gridRows, gridCols, row, col),
                          r.requiredLeft, r.requiredRight, r.indexes)
  {
    var j, i := row, col;
    var terrainRegion := Box(terrainGrid[j][i].x, terrainGrid[j][i].y,
                             terrainGrid[j + 1][i + 1].x, terrainGrid[j + 1][i + 1].y);
    var requiredLeft: seq<T> := [];
    var requiredRight: seq<T> := [];
    var listIndexes: seq<(int, int)> := [];
    ghost var sel: seq<Selected> := [];
    for n := 0 to |pairs|
      invariant sel == Selections(pairs, n, gridRows, gridCols, row, col)
      invariant SelectionsFit(pairs, sel, requiredLeft, requiredRight, listIndexes)
    {
      var left, right, indexes := PairContribution(pairs[n], gridRows, gridCols, j, i);
      SelectionsFitConcat(pairs, sel, requiredLeft, requiredRight, listIndexes, n,
                          PairTiles(pairs[n], gridRows, gridCols, row, col), left, right, indexes);
      requiredLeft := requiredLeft + left;
      requiredRight := requiredRight + right;
      listIndexes := listIndexes + indexes;
      SelectionsStep(pairs, n, gridRows, gridCols, row, col);
      sel := sel + Tag(n, PairTiles(pairs[n], gridRows, gridCols, row, col));
    }
    r := Correspondences(terrainRegion, requiredLeft, requiredRight, i * i + j * j, listIndexes);
  }

  /** The lists one pair adds hold, position by position, the tiles `tiles` names. */
  ghost predicate PairFit<T>(p: StereoPair<T>, tiles: seq<TileEntry>, left: seq<T>, right: seq<T>, indexes: seq<(int, int)>)
  {
    IsGrid(p.left, p.rows, p.cols) && IsGrid(p.right, p.rows, p.cols) &&
    |left| == |tiles| && |right| == |tiles| && |indexes| == |tiles| &&
    forall k :: 0 <= k < |tiles| ==>
      0 <= tiles[k].idy < p.rows && 0 <= tiles[k].idx < p.cols &&
      left[k] == p.left[tiles[k].idy][tiles[k].idx] &&
      right[k] == p.right[tiles[k].idy][tiles[k].idx] &&
      indexes[k] == (tiles[k].idy, tiles[k].idx)
  }

  /**
   * The body of the loop over stereo configurations, for one pair: bound the cell's eight
   * epipolar samples, crop to the largest region, skip an empty region, list the tiles with
   * the default margin 1 and keep those inside the tiling grid.
   */
  method PairContribution<T>(p: StereoPair<T>, gridRows: int, gridCols: int, row: int, col: int)
    returns (left: seq<T>, right: seq<T>, indexes: seq<(int, int)>)
    requires ValidPair(p, gridRows, gridCols)
    requires 0 <= row && row + 1 < gridRows && 0 <= col && col + 1 < gridCols
    ensures PairFit(p, PairTiles(p, gridRows, gridCols, row, col), left, right, indexes)
  {
    left, right, indexes := [], [], [];
    var epipolarRegion := CellEnvelope(p.pointsMin, p.pointsMax, row, col);
    epipolarRegion := Crop(epipolarRegion, p.largest);
    if !IsEmpty(epipolarRegion) {
      var listed := ListTiles(epipolarRegion, p.largest, p.tileSize, 1);
      var tiles := listed.value;
      for t := 0 to |tiles|
        invariant PairFit(p, InGridTiles(tiles[..t], p.rows, p.cols), left, right, indexes)
      {
        var idX, idY := tiles[t].idx, tiles[t].idy;
        InGridTilesStep(tiles, t, p.rows, p.cols);
        if 0 <= idX < p.cols && 0 <= idY < p.rows {
          left := left + [p.left[idY][idX]];
          right := right + [p.right[idY][idX]];
          indexes := indexes + [(idY, idX)];
        }
      }
      assert tiles[..|tiles|] == tiles;
    }
  }

  lemma SelectionsFitConcat<T>(pairs: seq<StereoPair<T>>, sel: seq<Selected>,
                               left: seq<T>, right: seq<T>, indexes: seq<(int, int)>, n: int,
                               tiles: seq<TileEntry>, l: seq<T>, r: seq<T>, i: seq<(int, int)>)
    requires SelectionsFit(pairs, sel, left, right, indexes)
    requires 0 <= n < |pairs| && PairFit(pairs[n], tiles, l, r, i)
    ensures SelectionsFit(pairs, sel + Tag(n, tiles), left + l, right + r, indexes + i)
  {
    var all := sel + Tag(n, tiles);
    forall k | 0 <= k < |all|
      ensures FitAt(pairs, all, left + l, right + r, indexes + i, k)
    {
      if k < |sel| {
        assert FitAt(pairs, sel, left, right, indexes, k);
      } else {
        assert all[k] == Selected(n, tiles[k - |sel|].idy, tiles[k - |sel|].idx);
      }
    }
  }

  lemma InGridTilesStep(tiles: seq<TileEntry>, t: int, rows: int, cols: int)
    requires 0 <= t < |tiles|
    ensures InGridTiles(tiles[..t + 1], rows, cols)
            == InGridTiles(tiles[..t], rows, cols)
               + (if 0 <= tiles[t].idx < cols && 0 <= tiles[t].idy < rows then [tiles[t]] else [])
  {
    assert tiles[..t + 1][..t] == tiles[..t];
  }

  /** The output lists hold, position by position, the tiles the selections name. */
  ghost predicate SelectionsFit<T>(pairs: seq<StereoPair<T>>, sel: seq<Selected>,
                                   left: seq<T>, right: seq<T>, indexes: seq<(int, int)>)
  {
    |left| == |sel| && |right| == |sel| && |indexes| == |sel| &&
    forall k :: 0 <= k < |sel| ==> FitAt(pairs, sel, left, right, indexes, k)
  }

  /** Position k of the output lists holds the tile selection k names. */
  ghost predicate FitAt<T>(pairs: seq<StereoPair<T>>, sel: seq<Selected>,
                           left: seq<T>, right: seq<T>, indexes: seq<(int, int)>, k: int)
    requires 0 <= k < |sel| && |left| == |sel| && |right| == |sel| && |indexes| == |sel|
  {
    0 <= sel[k].pair < |pairs| &&
    IsGrid(pairs[sel[k].pair].left, pairs[sel[k].pair].rows, pairs[sel[k].pair].cols) &&
    IsGrid(pairs[sel[k].pair].right, pairs[sel[k].pair].rows, pairs[sel[k].pair].cols) &&
    0 <= sel[k].idy < pairs[sel[k].pair].rows && 0 <= sel[k].idx < pairs[sel[k].pair].cols &&
    left[k] == pairs[sel[k].pair].left[sel[k].idy][sel[k].idx] &&
    right[k] == pairs[sel[k].pair].right[sel[k].idy][sel[k].idx] &&
    indexes[k] == (sel[k].idy, sel[k].idx)
  }

  /**
   * A tile of pair k is selected exactly when the pair's cropped epipolar region is non-empty,
   * the tile is listed for that region with the default margin 1, and its indices fall inside
   * the pair's tiling grid.
   */
  lemma SelectionsMembership<T>(pairs: seq<StereoPair<T>>, n: int, gridRows: int, gridCols: int,
                               row: int, col: int, s: Selected)
    requires 0 <= n <= |pairs| && AllValid(pairs, gridRows, gridCols)
    requires 0 <= row && row + 1 < gridRows && 0 <= col && col + 1 < gridCols
    ensures s in Selections(pairs, n, gridRows, gridCols, row, col) <==>
            0 <= s.pair < n && PairSelects(pairs[s.pair], gridRows, gridCols, row, col, s)
  {
    var blocks := seq(n, k requires 0 <= k < n => PairTiles(pairs[k], gridRows, gridCols, row, col));
    TagAllMembership(blocks, s);
    if 0 <= s.pair < n {
      PairMembership(pairs[s.pair], s.pair, gridRows, gridCols, row, col, s);
    }
  }

  /**
   * The selection rule for one pair: its cropped epipolar region is non-empty, the tile is
   * listed for that region with the default margin 1, and its indices fall inside the pair's
   * tiling grid.
   */
  ghost predicate PairSelects<T>(p: StereoPair<T>, gridRows: int, gridCols: int, row: int, col: int, s: Selected)
    requires ValidPair(p, gridRows, gridCols)
    requires 0 <= row && row + 1 < gridRows && 0 <= col && col + 1 < gridCols
  {
    var region := PairRegion(p, gridRows, gridCols, row, col);
    !IsEmpty(region) && 0 <= s.idx < p.cols && 0 <= s.idy < p.rows &&
    TileEntry(s.idx, s.idy, Crop(TileBox(s.idx, s.idy, p.tileSize), p.largest))
      in ListTilesSpec(region, p.largest, p.tileSize, 1)
  }

  /** The tiles one pair contributes, tagged with its position k, are exactly those it selects. */
  lemma PairMembership<T>(p: StereoPair<T>, k: int, gridRows: int, gridCols: int, row: int, col: int, s: Selected)
    requires ValidPair(p, gridRows, gridCols)
    requires 0 <= row && row + 1 < gridRows && 0 <= col && col + 1 < gridCols
    ensures s in Tag(k, PairTiles(p, gridRows, gridCols, row, col)) <==>
            s.pair == k && PairSelects(p, gridRows, gridCols, row, col, s)
  {
    var region := PairRegion(p, gridRows, gridCols, row, col);
    var tiles := PairTiles(p, gridRows, gridCols, row, col);
    var tagged := Tag(k, tiles);
    if !IsEmpty(region) {
      var listed := ListTilesSpec(region, p.largest, p.tileSize, 1);
      var e := TileEntry(s.idx, s.idy, Crop(TileBox(s.idx, s.idy, p.tileSize), p.largest));
      if s in tagged {
        var m :| 0 <= m < |tagged| && tagged[m] == s;
        InGridTilesMembership(listed, p.rows, p.cols, tiles[m]);
        ListTilesSound(region, p.largest, p.tileSize, 1, tiles[m]);
        assert tiles[m] == e;
      }
      if s.pair == k && PairSelects(p, gridRows, gridCols, row, col, s) {
        InGridTilesMembership(listed, p.rows, p.cols, e);
        var m :| 0 <= m < |tiles| && tiles[m] == e;
        assert tagged[m] == s;
      }
    }
  }

  /** A pair whose cropped epipolar region is empty contributes no tile. */
  lemma EmptyRegionContributesNothing<T>(pairs: seq<StereoPair<T>>, gridRows: int, gridCols: int,
                                         row: int, col: int, s: Selected)
    requires AllValid(pairs, gridRows, gridCols)
    requires 0 <= row && row + 1 < gridRows && 0 <= col && col + 1 < gridCols
    requires 0 <= s.pair < |pairs| && IsEmpty(PairRegion(pairs[s.pair], gridRows, gridCols, row, col))
    ensures s !in Selections(pairs, |pairs|, gridRows, gridCols, row, col)
  {
    SelectionsMembership(pairs, |pairs|, gridRows, gridCols, row, col, s);
  }

  /** Every selected tile is a non-empty tile of its pair's largest region. */
  lemma SelectedTilesNonEmpty<T>(pairs: seq<StereoPair<T>>, gridRows: int, gridCols: int,
                                 row: int, col: int, s: Selected)
    requires AllValid(pairs, gridRows, gridCols)
    requires 0 <= row && row + 1 < gridRows && 0 <= col && col + 1 < gridCols
    requires s in Selections(pairs, |pairs|, gridRows, gridCols, row, col)
    ensures 0 <= s.pair < |pairs|
    ensures var p := pairs[s.pair];
            !IsEmpty(Crop(TileBox(s.idx, s.idy, p.tileSize), p.largest)) &&
            InSpan(Crop(TileBox(s.idx, s.idy, p.tileSize), p.largest), p.largest)
  {
    SelectionsMembership(pairs, |pairs|, gridRows, gridCols, row, col, s);
    var p := pairs[s.pair];
    var region := PairRegion(p, gridRows, gridCols, row, col);
    ListTilesSound(region, p.largest, p.tileSize, 1,
                   TileEntry(s.idx, s.idy, Crop(TileBox(s.idx, s.idy, p.tileSize), p.largest)));
  }
}
