/**
 * The rules of the SIFT sparse-matching application, cars/applications/sparse_matching/sift.py:
 * its configuration defaults, the epipolar margins it asks for, the disparity range and the
 * column offsets that decide which right tiles each left tile is matched against, and the
 * filters applied to the matches.
 */
module Sift {
  import opened Arith
  import opened Wrappers
  import opened PyValue

  // ---------------------------------------------------------------------------------------
  // check_conf

  /** The defaults of `check_conf`, in the order it sets them. */
  const SIFT_DEFAULTS: Dict := [
    ("method", StrObj("sift")),
    ("disparity_margin", FloatObj(0.02)),
    ("elevation_delta_lower_bound", IntObj(-1000)),
    ("elevation_delta_upper_bound", IntObj(1000)),
    ("epipolar_error_upper_bound", FloatObj(10.0)),
    ("epipolar_error_maximum_bias", FloatObj(0.0)),
    ("disparity_outliers_rejection_percent", FloatObj(0.1)),
    ("sift_matching_threshold", FloatObj(0.6)),
    ("sift_n_octave", IntObj(8)),
    ("sift_n_scale_per_octave", IntObj(3)),
    ("sift_dog_threshold", FloatObj(20.0)),
    ("sift_edge_threshold", FloatObj(5.0)),
    ("sift_magnification", FloatObj(2.0)),
    ("sift_back_matching", BoolObj(true)),
    ("save_matches", BoolObj(false))
  ]

  /** `check_conf`, without the schema validation. */
  function CheckConf(conf: Option<Dict>): (r: Dict)
    ensures conf.Some? ==> Keys(conf.value) <= Keys(r)
    ensures forall k :: k in Keys(SIFT_DEFAULTS) ==> k in Keys(r)
  {
    Overload(conf, SIFT_DEFAULTS)
  }

  lemma SiftDefaultsUnique()
    ensures UniqueKeys(SIFT_DEFAULTS)
  {
    assert DistinctKeys(SIFT_DEFAULTS);
    DistinctKeysUnique(SIFT_DEFAULTS);
  }

  /**
   * A parameter the user leaves out gets its default (method "sift", disparity margin 0.02,
   * elevation bounds -1000 and 1000, epipolar error bound 10.0 and bias 0.0, back matching on,
   * matches not saved, ...).
   */
  lemma CheckConfDefault(conf: Option<Dict>, i: int)
    requires 0 <= i < |SIFT_DEFAULTS|
    requires conf.Some? ==> SIFT_DEFAULTS[i].0 !in Keys(conf.value)
    ensures Get(CheckConf(conf), SIFT_DEFAULTS[i].0) == Some(SIFT_DEFAULTS[i].1)
  {
    SiftDefaultsUnique();
    OverloadDefaultAt(conf, SIFT_DEFAULTS, i);
  }

  /** A parameter the user gives is kept as given. */
  lemma CheckConfKeepsGiven(conf: Dict, k: string)
    requires k in Keys(conf)
    ensures Get(CheckConf(Some(conf)), k) == Get(conf, k)
  {
    SiftDefaultsUnique();
    OverloadKeepsGiven(conf, SIFT_DEFAULTS, k);
  }

  // ---------------------------------------------------------------------------------------
  // get_margins

  /** The margins dataset: a left and a right margin, each over [left, up, right, down]. */
  datatype MarginPair = MarginPair(left: seq<real>, right: seq<int>)

  /**
   * `get_margins`: no margin around the left tile; around the right tile, the epipolar error
   * bound plus the maximum bias, rounded down on the first three sides and up on the last.
   */
  function GetMargins(upperBound: real, maxBias: real): (m: MarginPair)
    ensures |m.left| == 4 && |m.right| == 4
    ensures forall i :: 0 <= i < |m.left| ==> m.left[i] == 0.0
    ensures forall i :: 0 <= i < 3 ==>
              m.right[i] as real <= upperBound + maxBias < m.right[i] as real + 1.0
    ensures m.right[3] as real - 1.0 < upperBound + maxBias <= m.right[3] as real
  {
    var b := upperBound + maxBias;
    MarginPair([0.0, 0.0, 0.0, 0.0], [Floor(b), Floor(b), Floor(b), Ceil(b)])
  }

  /** The down margin exceeds the others by one exactly when the error budget is fractional. */
  lemma GetMarginsRounding(upperBound: real, maxBias: real)
    ensures var m := GetMargins(upperBound, maxBias);
            var b := upperBound + maxBias;
            m.right[3] == m.right[0] <==> b == b.Floor as real
    ensures var m := GetMargins(upperBound, maxBias);
            0 <= m.right[3] - m.right[0] <= 1
  {
  }

  // ---------------------------------------------------------------------------------------
  // Disparity range and tile offsets in run

  /**
   * The disparity bounds: the elevation bounds divided by the disparity-to-altitude ratio,
   * or the ZeroDivisionError a zero ratio raises.
   */
  function DispBounds(lowerElevation: real, upperElevation: real, dispToAltRatio: real)
    : (r: Result<(real, real)>)
    ensures r.Err? <==> dispToAltRatio == 0.0
    ensures r.Ok? ==> r.value.0 * dispToAltRatio == lowerElevation
                      && r.value.1 * dispToAltRatio == upperElevation
  {
    if dispToAltRatio == 0.0 then Err(ArithmeticError("float division by zero"))
    else Ok((lowerElevation / dispToAltRatio, upperElevation / dispToAltRatio))
  }

  /** With a positive ratio, ordered elevation bounds give ordered disparity bounds. */
  lemma DispBoundsOrdered(lowerElevation: real, upperElevation: real, dispToAltRatio: real)
    requires dispToAltRatio > 0.0 && lowerElevation <= upperElevation
    ensures DispBounds(lowerElevation, upperElevation, dispToAltRatio).value.0
            <= DispBounds(lowerElevation, upperElevation, dispToAltRatio).value.1
  {
    var r := DispBounds(lowerElevation, upperElevation, dispToAltRatio).value;
    if r.0 > r.1 {
      MulLtMono(r.1, r.0, dispToAltRatio);
    }
  }

  /** One window of the tiling grid: [row_min, row_max, col_min, col_max]. */
  datatype Window = Window(rowMin: int, rowMax: int, colMin: int, colMax: int)

  function ColSize(w: Window): int {
    w.colMax - w.colMin
  }

  /**
   * `np.max(grid[:, :, 3] - grid[:, :, 2])` over the windows of the grid: the widest window,
   * or the ValueError numpy raises on an empty grid.
   */
  function MaxColSize(windows: seq<Window>): (r: Result<int>)
    ensures r.Err? <==> |windows| == 0
    ensures r.Ok? ==> forall w :: w in windows ==> ColSize(w) <= r.value
    ensures r.Ok? ==> exists w :: w in windows && ColSize(w) == r.value
  {
    if |windows| == 0 then Err(ValueError("zero-size array to reduction operation maximum which has no identity"))
    else if |windows| == 1 then Ok(ColSize(windows[0]))
    else
      var rest := MaxColSize(windows[1..]).value;
      assert forall w :: w in windows ==> w == windows[0] || w in windows[1..];
      Ok(if ColSize(windows[0]) >= rest then ColSize(windows[0]) else rest)
  }

  /**
   * `min_offset` and `max_offset`: the disparity bounds in units of the widest window, rounded
   * outwards; a zero width makes `math.floor` fail on an infinite or undefined quotient.
   */
  function OffsetRange(dispLower: real, dispUpper: real, width: int): (r: Result<(int, int)>)
    ensures r.Err? <==> width == 0
  {
    if width == 0 then Err(ArithmeticError("cannot convert float infinity or NaN to integer"))
    else Ok((Floor(dispLower / width as real), Ceil(dispUpper / width as real)))
  }

  /**
   * The offsets are enough: every disparity of the range, as a shift in pixels, lies between
   * the smallest and the largest offset times the window width.
   */
  lemma OffsetsCoverDisparities(dispLower: real, dispUpper: real, width: int, d: real)
    requires width > 0 && dispLower <= d <= dispUpper
    ensures var r := OffsetRange(dispLower, dispUpper, width).value;
            (r.0 * width) as real <= d <= (r.1 * width) as real
  {
    var r := OffsetRange(dispLower, dispUpper, width).value;
    var w := width as real;
    MulConv(r.0, width);
    MulConv(r.1, width);
    MulLeMono(r.0 as real, dispLower / w, w);
    DivMulCancel(dispLower, w);
    MulLeMono(dispUpper / w, r.1 as real, w);
    DivMulCancel(dispUpper, w);
  }

  /** `range(min_offset, max_offset + 1)` */
  function Offsets(lo: int, hi: int): (offs: seq<int>)
    decreases hi - lo
    ensures |offs| == if hi >= lo then hi - lo + 1 else 0
    ensures forall i :: 0 <= i < |offs| ==> offs[i] == lo + i
  {
    if hi < lo then [] else [lo] + Offsets(lo + 1, hi)
  }

  /** A tile position [row, col] of a tiled dataset. */
  datatype TilePos = TilePos(row: int, col: int)

  /**
   * The right tiles the left tile (row, col) is matched against: (row, col + offset) for each
   * offset in turn whose column exists.
   */
  function NeighbourTiles(row: int, col: int, ncols: int, offsets: seq<int>): (r: seq<TilePos>)
    ensures |r| <= |offsets|
    ensures forall k :: 0 <= k < |r| ==> r[k].row == row && 0 <= r[k].col < ncols
  {
    if |offsets| == 0 then []
    else
      var off := offsets[|offsets| - 1];
      NeighbourTiles(row, col, ncols, offsets[..|offsets| - 1])
      + (if 0 <= col + off < ncols then [TilePos(row, col + off)] else [])
  }

  /**
   * A right tile is matched against left tile (row, col) exactly when it sits in the same row,
   * its column exists and it lies an offset of the range away.
   */
  lemma {:induction false} NeighbourTilesIff(row: int, col: int, ncols: int, offsets: seq<int>, t: TilePos)
    ensures t in NeighbourTiles(row, col, ncols, offsets)
            <==> t.row == row && 0 <= t.col < ncols && t.col - col in offsets
  {
    if |offsets| > 0 {
      var init := offsets[..|offsets| - 1];
      NeighbourTilesIff(row, col, ncols, init, t);
      assert offsets == init + [offsets[|offsets| - 1]];
    }
  }

  predicate IncreasingCols(ts: seq<TilePos>) {
    forall i, j :: 0 <= i < j < |ts| ==> ts[i].col < ts[j].col
  }

  /** Tasks for one left tile come in increasing right column when the offsets increase. */
  lemma {:induction false} NeighbourTilesIncreasing(row: int, col: int, ncols: int, offsets: seq<int>)
    requires forall i, j :: 0 <= i < j < |offsets| ==> offsets[i] < offsets[j]
    ensures IncreasingCols(NeighbourTiles(row, col, ncols, offsets))
  {
    if |offsets| > 0 {
      var init := offsets[..|offsets| - 1];
      var last := offsets[|offsets| - 1];
      NeighbourTilesIncreasing(row, col, ncols, init);
      var prev := NeighbourTiles(row, col, ncols, init);
      var ts := NeighbourTiles(row, col, ncols, offsets);
      assert ts == prev + (if 0 <= col + last < ncols then [TilePos(row, col + last)] else []);
      forall i, j | 0 <= i < j < |ts|
        ensures ts[i].col < ts[j].col
      {
        if j >= |prev| {
          assert ts[j] == TilePos(row, col + last);
          assert ts[i] == prev[i];
          NeighbourTilesIff(row, col, ncols, init, prev[i]);
          var k :| 0 <= k < |init| && init[k] == prev[i].col - col;
          assert offsets[k] < last;
        } else {
          assert ts[i] == prev[i] && ts[j] == prev[j];
        }
      }
    }
  }

  /**
   * With the offsets of `run`, left tile (row, col) is matched against exactly the right tiles
   * (row, c) with c an existing column and c - col in [min_offset, max_offset], in increasing c.
   */
  lemma RunNeighbours(row: int, col: int, ncols: int, minOffset: int, maxOffset: int, t: TilePos)
    ensures var ts := NeighbourTiles(row, col, ncols, Offsets(minOffset, maxOffset));
            (t in ts <==> t.row == row && 0 <= t.col < ncols && minOffset <= t.col - col <= maxOffset)
            && IncreasingCols(ts)
  {
    var offs := Offsets(minOffset, maxOffset);
    NeighbourTilesIff(row, col, ncols, offs, t);
    NeighbourTilesIncreasing(row, col, ncols, offs);
    if minOffset <= t.col - col <= maxOffset {
      assert offs[t.col - col - minOffset] == t.col - col;
    }
  }

  /** The offset loop of `run` for one left tile: one matching task per existing right tile. */
  method CollectNeighbours(row: int, col: int, ncols: int, offsets: seq<int>) returns (matches: seq<TilePos>)
    ensures matches == NeighbourTiles(row, col, ncols, offsets)
  {
    matches := [];
    for k := 0 to |offsets|
      invariant matches == NeighbourTiles(row, col, ncols, offsets[..k])
    {
      assert offsets[..k + 1][..k] == offsets[..k];
      if 0 <= col + offsets[k] < ncols {
        matches := matches + [TilePos(row, col + offsets[k])];
      }
    }
    assert offsets[..|offsets|] == offsets;
  }

  /**
   * The task loop of `run`: for every left tile, column by column and row by row, the right
   * tiles of each offset in increasing order, skipping columns outside the dataset.
   */
  method PlanMatchTasks(nrows: nat, ncols: nat, minOffset: int, maxOffset: int)
    returns (tasks: array2<seq<TilePos>>)
    ensures fresh(tasks)
    ensures tasks.Length0 == nrows && tasks.Length1 == ncols
    ensures forall r, c :: 0 <= r < nrows && 0 <= c < ncols ==>
              tasks[r, c] == NeighbourTiles(r, c, ncols, Offsets(minOffset, maxOffset))
  {
    var offsets := Offsets(minOffset, maxOffset);
    tasks := new seq<TilePos>[nrows, ncols];
    for col := 0 to ncols
      invariant forall r, c :: 0 <= r < nrows && 0 <= c < col ==>
                  tasks[r, c] == NeighbourTiles(r, c, ncols, offsets)
    {
      for row := 0 to nrows
        invariant forall r, c :: 0 <= r < nrows && 0 <= c < col ==>
                    tasks[r, c] == NeighbourTiles(r, c, ncols, offsets)
        invariant forall r :: 0 <= r < row ==> tasks[r, col] == NeighbourTiles(r, col, ncols, offsets)
      {
        var matches := CollectNeighbours(row, col, ncols, offsets);
        tasks[row, col] := matches;
      }
    }
  }

  // ---------------------------------------------------------------------------------------
  // Match filters

  /** One match: left x, left y, right x, right y (the four columns of the matches array). */
  datatype Match = Match(x1: real, y1: real, x2: real, y2: real)

  /** `matches[:, 2] - matches[:, 0]` */
  function Disparity(m: Match): real {
    m.x2 - m.x1
  }

  /** `matches[:, 3] - matches[:, 1]` */
  function EpipolarError(m: Match): real {
    m.y2 - m.y1
  }

  /** `s[mask]` for a boolean mask computed element-wise: the kept elements, in order. */
  function Filter<T>(s: seq<T>, keep: T -> bool): (r: seq<T>)
    ensures |r| <= |s|
    ensures forall x :: x in r ==> x in s && keep(x)
  {
    if |s| == 0 then []
    else (if keep(s[0]) then [s[0]] else []) + Filter(s[1..], keep)
  }

  lemma {:induction false} FilterIff<T>(s: seq<T>, keep: T -> bool, x: T)
    ensures x in Filter(s, keep) <==> x in s && keep(x)
  {
    if |s| > 0 {
      FilterIff(s[1..], keep, x);
      assert x in s <==> x == s[0] || x in s[1..];
    }
  }

  /** Two masks applied in turn keep what both keep, in the same order. */
  lemma {:induction false} FilterTwice<T>(s: seq<T>, p: T -> bool, q: T -> bool, both: T -> bool)
    requires forall x :: both(x) == (p(x) && q(x))
    ensures Filter(Filter(s, p), q) == Filter(s, both)
  {
    if |s| > 0 {
      FilterTwice(s[1..], p, q, both);
      FilterAppend((if p(s[0]) then [s[0]] else []), Filter(s[1..], p), q);
      if p(s[0]) {
        assert Filter([s[0]], q) == (if q(s[0]) then [s[0]] else []) by {
          assert [s[0]][1..] == [];
        }
      } else {
        assert Filter([], q) == [];
      }
    }
  }

  /** Masking a concatenation masks each part: the kept elements keep their order. */
  lemma {:induction false} FilterAppend<T>(a: seq<T>, b: seq<T>, keep: T -> bool)
    ensures Filter(a + b, keep) == Filter(a, keep) + Filter(b, keep)
  {
    if |a| == 0 {
      assert a + b == b;
    } else {
      var head := if keep(a[0]) then [a[0]] else [];
      assert (a + b)[0] == a[0] && (a + b)[1..] == a[1..] + b;
      assert Filter(a + b, keep) == head + Filter(a[1..] + b, keep);
      FilterAppend(a[1..], b, keep);
      assert Filter(a, keep) == head + Filter(a[1..], keep);
    }
  }

  /** A mask that keeps everything changes nothing. */
  lemma {:induction false} FilterKeepsAll<T>(s: seq<T>, keep: T -> bool)
    requires forall x :: x in s ==> keep(x)
    ensures Filter(s, keep) == s
  {
    if |s| > 0 {
      FilterKeepsAll(s[1..], keep);
    }
  }

  /**
   * The disparity filter of `compute_matches`: with both bounds, the matches whose disparity is
   * at least the lower bound, then of those the ones at most the upper bound; with a bound
   * missing, every match.
   */
  function DispRangeFilter(matches: seq<Match>, lower: Option<real>, upper: Option<real>): (r: seq<Match>)
    ensures |r| <= |matches|
    ensures forall m :: m in r ==> m in matches
    ensures lower.Some? && upper.Some? ==> forall m :: m in r ==> lower.value <= Disparity(m) <= upper.value
  {
    if lower.Some? && upper.Some? then
      Filter(Filter(matches, m => Disparity(m) >= lower.value), m => Disparity(m) <= upper.value)
    else matches
  }

  /**
   * With both bounds, exactly the matches whose disparity lies in [lower, upper] are kept, in
   * their order; with a bound missing nothing is filtered.
   */
  lemma DispRangeFilterMeaning(matches: seq<Match>, lower: Option<real>, upper: Option<real>, m: Match)
    ensures lower.Some? && upper.Some? ==>
              DispRangeFilter(matches, lower, upper)
              == Filter(matches, m => lower.value <= Disparity(m) <= upper.value)
    ensures lower.Some? && upper.Some? ==>
              (m in DispRangeFilter(matches, lower, upper)
               <==> m in matches && lower.value <= Disparity(m) <= upper.value)
    ensures lower.None? || upper.None? ==> DispRangeFilter(matches, lower, upper) == matches
  {
    if lower.Some? && upper.Some? {
      var p := (m: Match) => Disparity(m) >= lower.value;
      var q := (m: Match) => Disparity(m) <= upper.value;
      var inRange := (m: Match) => lower.value <= Disparity(m) <= upper.value;
      FilterTwice(matches, p, q, inRange);
      FilterIff(matches, inRange, m);
    }
  }

  /** The shift removed from the epipolar errors: none when no bias is allowed, else the median. */
  function EpipolarShift(maxBias: real, median: real): real {
    if maxBias == 0.0 then 0.0 else median
  }

  /** The epipolar filter of `filter_matches`: the error minus the shift at least -bound, then at most bound. */
  function EpipolarFilter(matches: seq<Match>, upperBound: real, shift: real): seq<Match> {
    Filter(Filter(matches, m => EpipolarError(m) - shift >= -upperBound),
           m => EpipolarError(m) - shift <= upperBound)
  }

  /** The message of the ValueError `filter_matches` raises when too few matches remain. */
  const INSUFFICIENT_MATCHES: string :=
    "Insufficient amount of matches found (< 100), can not safely estimate epipolar error correction and disparity range"

  /**
   * `filter_matches` after the tiles are concatenated: the matches within the epipolar error
   * bound around the shift, or a ValueError when fewer than 5 remain. The median of the
   * epipolar errors is given, not computed.
   */
  function FilterMatches(matches: seq<Match>, upperBound: real, maxBias: real, median: real)
    : (r: Result<seq<Match>>)
    ensures r.Ok? ==> 5 <= |r.value| <= |matches|
    ensures r.Ok? ==> forall m :: m in r.value ==> m in matches && WithinBound(m, upperBound, EpipolarShift(maxBias, median))
    ensures r.Err? ==> r.error.ValueError?
  {
    var kept := EpipolarFilter(matches, upperBound, EpipolarShift(maxBias, median));
    if |kept| < 5 then
      Err(ValueError(INSUFFICIENT_MATCHES))
    else Ok(kept)
  }

  /** The epipolar error, less the shift, lies within the bound. */
  predicate WithinBound(m: Match, upperBound: real, shift: real) {
    -upperBound <= EpipolarError(m) - shift <= upperBound
  }

  /**
   * `filter_matches` succeeds exactly when at least 5 matches lie within the bound around the
   * shift, and then keeps exactly those, in order.
   */
  lemma FilterMatchesMeaning(matches: seq<Match>, upperBound: real, maxBias: real, median: real, m: Match)
    ensures var within := Filter(matches, m => WithinBound(m, upperBound, EpipolarShift(maxBias, median)));
            var r := FilterMatches(matches, upperBound, maxBias, median);
            (r.Ok? <==> |within| >= 5) && (r.Ok? ==> r.value == within)
    ensures var r := FilterMatches(matches, upperBound, maxBias, median);
            r.Ok? ==> (m in r.value <==> m in matches && WithinBound(m, upperBound, EpipolarShift(maxBias, median)))
  {
    var shift := EpipolarShift(maxBias, median);
    var p := (m: Match) => EpipolarError(m) - shift >= -upperBound;
    var q := (m: Match) => EpipolarError(m) - shift <= upperBound;
    var within := (m: Match) => WithinBound(m, upperBound, shift);
    FilterTwice(matches, p, q, within);
    FilterIff(matches, within, m);
  }

  /** With no bias allowed, the median plays no part. */
  lemma FilterMatchesIgnoresMedian(matches: seq<Match>, upperBound: real, median: real)
    ensures FilterMatches(matches, upperBound, 0.0, median) == FilterMatches(matches, upperBound, 0.0, 0.0)
  {
  }

  /** The matches of the tiles of rows 0 .. nrows - 1, row after row, column after column. */
  function TilesConcat(tiles: array2<seq<Match>>, nrows: int): seq<Match>
    reads tiles
    requires 0 <= nrows <= tiles.Length0
    decreases nrows
  {
    if nrows == 0 then [] else TilesConcat(tiles, nrows - 1) + RowConcat(tiles, nrows - 1, tiles.Length1)
  }

  /** The matches of tiles (row, 0) .. (row, ncols - 1). */
  function RowConcat(tiles: array2<seq<Match>>, row: int, ncols: int): seq<Match>
    reads tiles
    requires 0 <= row < tiles.Length0 && 0 <= ncols <= tiles.Length1
    decreases ncols
  {
    if ncols == 0 then [] else RowConcat(tiles, row, ncols - 1) + tiles[row, ncols - 1]
  }

  lemma {:induction false} RowConcatMembership(tiles: array2<seq<Match>>, row: int, ncols: int, m: Match)
    requires 0 <= row < tiles.Length0 && 0 <= ncols <= tiles.Length1
    ensures m in RowConcat(tiles, row, ncols) <==> exists c :: 0 <= c < ncols && m in tiles[row, c]
    decreases ncols
  {
    if ncols > 0 {
      RowConcatMembership(tiles, row, ncols - 1, m);
    }
  }

  /** The concatenation holds exactly the matches found in some tile. */
  lemma {:induction false} TilesConcatMembership(tiles: array2<seq<Match>>, nrows: int, m: Match)
    requires 0 <= nrows <= tiles.Length0
    ensures m in TilesConcat(tiles, nrows)
            <==> exists r, c :: 0 <= r < nrows && 0 <= c < tiles.Length1 && m in tiles[r, c]
    decreases nrows
  {
    if nrows > 0 {
      var front, last := TilesConcat(tiles, nrows - 1), RowConcat(tiles, nrows - 1, tiles.Length1);
      TilesConcatMembership(tiles, nrows - 1, m);
      RowConcatMembership(tiles, nrows - 1, tiles.Length1, m);
      assert m in front + last <==> m in front || m in last;
      if m in last {
        var c :| 0 <= c < tiles.Length1 && m in tiles[nrows - 1, c];
        assert 0 <= nrows - 1 < nrows;
      }
      if exists r, c :: 0 <= r < nrows && 0 <= c < tiles.Length1 && m in tiles[r, c] {
        var r, c :| 0 <= r < nrows && 0 <= c < tiles.Length1 && m in tiles[r, c];
        if r < nrows - 1 {
          assert m in front;
        } else {
          assert m in last;
        }
      }
    }
  }

  /** The concatenation loop of `filter_matches`: rows outer, columns inner. */
  method ConcatTiles(tiles: array2<seq<Match>>) returns (matches: seq<Match>)
    ensures matches == TilesConcat(tiles, tiles.Length0)
  {
    matches := [];
    for row := 0 to tiles.Length0
      invariant matches == TilesConcat(tiles, row)
    {
      for col := 0 to tiles.Length1
        invariant matches == TilesConcat(tiles, row) + RowConcat(tiles, row, col)
      {
        matches := matches + tiles[row, col];
      }
    }
  }
}
