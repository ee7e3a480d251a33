/**
 * The census/SGM dense-matching application, cars/applications/dense_matching/census_mccnn_sgm.py:
 * its configuration defaults, the user elevation offsets that override the estimated disparity
 * range before it is rounded outwards, and the task grid of `run`, which zeroes the left
 * overlaps and asks for one two-output disparity computation per tile.
 */
module CensusSgm {
  import opened Arith
  import opened Wrappers
  import opened PyValue
  import opened SequentialCluster

  // ---------------------------------------------------------------------------------------
  // check_conf

  /** The defaults of `check_conf`, in the order it sets them (`loader_conf` comes after). */
  const CENSUS_DEFAULTS: Dict := [
    ("method", StrObj("census_sgm")),
    ("min_epi_tile_size", IntObj(300)),
    ("max_epi_tile_size", IntObj(1500)),
    ("epipolar_tile_margin_in_percent", IntObj(60)),
    ("use_sec_disp", BoolObj(false)),
    ("min_elevation_offset", NoneObj),
    ("max_elevation_offset", NoneObj),
    ("save_disparity_map", BoolObj(false)),
    ("loader", StrObj("pandora"))
  ]

  /**
   * `check_conf`, without the schema validation: the defaults filled in, then `loader_conf`
   * set to the configuration the Pandora loader returns (`loaderConf`, a parameter since the
   * loader is not part of this model).
   */
  function CheckConf(conf: Option<Dict>, loaderConf: Dict): (r: Dict)
    ensures conf.Some? ==> Keys(conf.value) <= Keys(r)
    ensures forall k :: k in Keys(CENSUS_DEFAULTS) ==> k in Keys(r)
    ensures "loader_conf" in Keys(r)
  {
    OverloadThenSet(conf, CENSUS_DEFAULTS, "loader_conf", DictObj(loaderConf));
    Set(Overload(conf, CENSUS_DEFAULTS), "loader_conf", DictObj(loaderConf))
  }

  lemma CensusDefaultsUnique()
    ensures UniqueKeys(CENSUS_DEFAULTS)
  {
    assert DistinctKeys(CENSUS_DEFAULTS);
    DistinctKeysUnique(CENSUS_DEFAULTS);
  }

  /** No default key has the eleven characters of "loader_conf". */
  lemma DefaultKeyLengths(i: int)
    requires 0 <= i < |CENSUS_DEFAULTS|
    ensures |CENSUS_DEFAULTS[i].0| != |"loader_conf"|
  {
  }

  /**
   * A parameter the user leaves out gets its default (method "census_sgm", tile sizes 300 and
   * 1500, a 60% margin, no secondary disparity, no elevation offsets, no saving, the "pandora"
   * loader).
   */
  lemma CheckConfDefault(conf: Option<Dict>, loaderConf: Dict, i: int)
    requires 0 <= i < |CENSUS_DEFAULTS|
    requires conf.Some? ==> CENSUS_DEFAULTS[i].0 !in Keys(conf.value)
    ensures Get(CheckConf(conf, loaderConf), CENSUS_DEFAULTS[i].0) == Some(CENSUS_DEFAULTS[i].1)
  {
    CensusDefaultsUnique();
    OverloadDefaultAt(conf, CENSUS_DEFAULTS, i);
    DefaultKeyLengths(i);
    SetGet(Overload(conf, CENSUS_DEFAULTS), "loader_conf", DictObj(loaderConf), CENSUS_DEFAULTS[i].0);
  }

  /** A parameter the user gives is kept as given, except `loader_conf`. */
  lemma CheckConfKeepsGiven(conf: Dict, loaderConf: Dict, k: string)
    requires k in Keys(conf) && k != "loader_conf"
    ensures Get(CheckConf(Some(conf), loaderConf), k) == Get(conf, k)
  {
    CensusDefaultsUnique();
    OverloadKeepsGiven(conf, CENSUS_DEFAULTS, k);
    SetGet(Overload(Some(conf), CENSUS_DEFAULTS), "loader_conf", DictObj(loaderConf), k);
  }

  /** `loader_conf` is always the loader's configuration, whatever the user gave. */
  lemma CheckConfLoaderConf(conf: Option<Dict>, loaderConf: Dict)
    ensures Get(CheckConf(conf, loaderConf), "loader_conf") == Some(DictObj(loaderConf))
  {
    SetGet(Overload(conf, CENSUS_DEFAULTS), "loader_conf", DictObj(loaderConf), "loader_conf");
  }

  // ---------------------------------------------------------------------------------------
  // get_margins: the disparity range

  /** A disparity bound after the optional user override: the elevation offset over the ratio. */
  function Overridden(offset: Option<int>, dispToAltRatio: real, estimate: real): real
    requires offset.Some? ==> dispToAltRatio != 0.0
  {
    if offset.Some? then offset.value as real / dispToAltRatio else estimate
  }

  /**
   * The disparity range of `get_margins`, rounded outwards to integers. With an elevation
   * offset set, the bound becomes offset / ratio whatever the estimate (a larger minimum or a
   * smaller maximum only logs a warning). The errors, in the order the code meets them: a zero
   * ratio used by an override (ZeroDivisionError); a missing estimate compared with an
   * override, or formatted in the log line (TypeError).
   */
  function GetDispRange(minOffset: Option<int>, maxOffset: Option<int>, dispToAltRatio: real,
                        dispMin: Option<real>, dispMax: Option<real>): (r: Result<(int, int)>)
    ensures r.Ok? <==> dispMin.Some? && dispMax.Some?
                       && (dispToAltRatio == 0.0 ==> minOffset.None? && maxOffset.None?)
    ensures r.Err? && (minOffset.Some? || maxOffset.Some?) && dispToAltRatio == 0.0
            ==> r.error == ArithmeticError("division by zero")
    ensures r.Err? && dispToAltRatio != 0.0 ==> r.error.TypeError?
    ensures r.Ok? ==>
              var lo := Overridden(minOffset, dispToAltRatio, dispMin.value);
              var hi := Overridden(maxOffset, dispToAltRatio, dispMax.value);
              r.value.0 as real <= lo < r.value.0 as real + 1.0
              && r.value.1 as real - 1.0 < hi <= r.value.1 as real
  {
    if minOffset.Some? && dispToAltRatio == 0.0 then Err(ArithmeticError("division by zero"))
    else if minOffset.Some? && dispMin.None? then Err(TypeError("'>' not supported with None"))
    else
      var lo := if minOffset.Some? then Some(minOffset.value as real / dispToAltRatio) else dispMin;
      if maxOffset.Some? && dispToAltRatio == 0.0 then Err(ArithmeticError("division by zero"))
      else if maxOffset.Some? && dispMax.None? then Err(TypeError("'<' not supported with None"))
      else
        var hi := if maxOffset.Some? then Some(maxOffset.value as real / dispToAltRatio) else dispMax;
        match (lo, hi)
        case (Some(l), Some(h)) => Ok((Floor(l), Ceil(h)))
        case _ => Err(TypeError("unsupported format string passed to NoneType"))
  }

  /** The rounded range contains every disparity of the real range it was rounded from. */
  lemma GetDispRangeContains(minOffset: Option<int>, maxOffset: Option<int>, dispToAltRatio: real,
                             dispMin: real, dispMax: real, d: real)
    requires dispToAltRatio == 0.0 ==> minOffset.None? && maxOffset.None?
    requires Overridden(minOffset, dispToAltRatio, dispMin) <= d <= Overridden(maxOffset, dispToAltRatio, dispMax)
    ensures var r := GetDispRange(minOffset, maxOffset, dispToAltRatio, Some(dispMin), Some(dispMax));
            r.Ok? && r.value.0 as real <= d <= r.value.1 as real
  {
  }

  /**
   * The override is unconditional: with an offset set, the bound on that side does not depend
   * on the estimate at all.
   */
  lemma GetDispRangeOverrideIgnoresEstimate(minOffset: int, maxOffset: int, dispToAltRatio: real,
                                            min1: real, max1: real, min2: real, max2: real)
    requires dispToAltRatio != 0.0
    ensures GetDispRange(Some(minOffset), Some(maxOffset), dispToAltRatio, Some(min1), Some(max1))
            == GetDispRange(Some(minOffset), Some(maxOffset), dispToAltRatio, Some(min2), Some(max2))
  {
  }

  /**
   * An offset above the estimated minimum still wins: the rounded minimum is the offset's
   * floor over the ratio even when that narrows the estimated range.
   */
  lemma {:induction false} GetDispRangeNarrowing(minOffset: int, dispToAltRatio: real, dispMin: real, dispMax: real)
    requires dispToAltRatio > 0.0 && minOffset as real / dispToAltRatio > dispMin
    ensures var r := GetDispRange(Some(minOffset), None, dispToAltRatio, Some(dispMin), Some(dispMax));
            r.Ok? && r.value.0 == Floor(minOffset as real / dispToAltRatio)
            && r.value.0 as real > dispMin - 1.0
  {
    var r := GetDispRange(Some(minOffset), None, dispToAltRatio, Some(dispMin), Some(dispMax));
    assert r == Ok((Floor(minOffset as real / dispToAltRatio), Ceil(dispMax)));
  }

  /** Without offsets the estimates are only rounded, and ordered estimates stay ordered. */
  lemma GetDispRangeNoOffsets(dispToAltRatio: real, dispMin: real, dispMax: real)
    requires dispMin <= dispMax
    ensures var r := GetDispRange(None, None, dispToAltRatio, Some(dispMin), Some(dispMax));
            r == Ok((Floor(dispMin), Ceil(dispMax))) && r.value.0 <= r.value.1
  {
  }

  // ---------------------------------------------------------------------------------------
  // run

  /** `overlaps *= 0` on the left disparity map's overlaps array, in place. */
  method ZeroOverlaps(overlaps: array3<real>)
    modifies overlaps
    ensures forall i, j, k :: 0 <= i < overlaps.Length0 && 0 <= j < overlaps.Length1 && 0 <= k < overlaps.Length2
              ==> overlaps[i, j, k] == 0.0
  {
    for i := 0 to overlaps.Length0
      invariant forall a, b, c :: 0 <= a < i && 0 <= b < overlaps.Length1 && 0 <= c < overlaps.Length2
                  ==> overlaps[a, b, c] == 0.0
    {
      ZeroRow(overlaps, i);
    }
  }

  /** The zeroing of one first index of the overlaps array. */
  method ZeroRow(overlaps: array3<real>, i: int)
    requires 0 <= i < overlaps.Length0
    modifies overlaps
    ensures forall a, b, c :: 0 <= a < overlaps.Length0 && 0 <= b < overlaps.Length1 && 0 <= c < overlaps.Length2
              ==> overlaps[a, b, c] == if a == i then 0.0 else old(overlaps[a, b, c])
  {
    for j := 0 to overlaps.Length1
      invariant forall a, b, c :: 0 <= a < overlaps.Length0 && 0 <= b < overlaps.Length1 && 0 <= c < overlaps.Length2
                  ==> overlaps[a, b, c] == if a == i && b < j then 0.0 else old(overlaps[a, b, c])
    {
      for k := 0 to overlaps.Length2
        invariant forall a, b, c :: 0 <= a < overlaps.Length0 && 0 <= b < overlaps.Length1 && 0 <= c < overlaps.Length2
                    ==> overlaps[a, b, c] == if a == i && (b < j || (b == j && c < k)) then 0.0 else old(overlaps[a, b, c])
      {
        overlaps[i, j, k] := 0.0;
      }
    }
  }

  /** The call `compute_disparity` is given for one tile: the two image tiles and the range. */
  datatype DisparityCall<T> = ComputeDisparity(left: T, right: T, dispMin: int, dispMax: int, useSecDisp: bool)

  /**
   * The task loop of `run`, column by column and row by row over the right map's shape: tile
   * (row, col) of the left and right disparity maps become outputs 0 and 1 of one
   * `compute_disparity` task on the image tiles (row, col). Each map has the shape of its own
   * images; a left tile the loop does not reach stays empty. Reading a left image tile outside
   * the left images raises IndexError.
   */
  method PlanDisparityTasks<T>(leftImages: array2<T>, rightImages: array2<T>, dispMin: int, dispMax: int, useSecDisp: bool)
    returns (r: Result<(array2<Option<Delayed<DisparityCall<T>>>>, array2<Option<Delayed<DisparityCall<T>>>>)>)
    ensures r.Err? <==> rightImages.Length0 > 0 && rightImages.Length1 > 0
                        && (leftImages.Length0 < rightImages.Length0 || leftImages.Length1 < rightImages.Length1)
    ensures r.Err? ==> r.error.IndexError?
    ensures r.Ok? ==>
              var (leftMap, rightMap) := r.value;
              fresh(leftMap) && fresh(rightMap)
              && leftMap.Length0 == leftImages.Length0 && leftMap.Length1 == leftImages.Length1
              && rightMap.Length0 == rightImages.Length0 && rightMap.Length1 == rightImages.Length1
              && (forall row, col :: 0 <= row < leftMap.Length0 && 0 <= col < leftMap.Length1 ==>
                    leftMap[row, col]
                    == if row < rightImages.Length0 && col < rightImages.Length1
                       then Some(Output(ComputeDisparity(leftImages[row, col], rightImages[row, col], dispMin, dispMax, useSecDisp), 0))
                       else None)
              && (forall row, col :: 0 <= row < rightMap.Length0 && 0 <= col < rightMap.Length1 ==>
                    rightMap[row, col]
                    == Some(Output(ComputeDisparity(leftImages[row, col], rightImages[row, col], dispMin, dispMax, useSecDisp), 1)))
  {
    var nrows, ncols := rightImages.Length0, rightImages.Length1;
    if nrows > 0 && ncols > 0 && (leftImages.Length0 < nrows || leftImages.Length1 < ncols) {
      return Err(IndexError("list index out of range"));
    }
    var leftMap := new Option<Delayed<DisparityCall<T>>>[leftImages.Length0, leftImages.Length1]((_, _) => None);
    var rightMap := new Option<Delayed<DisparityCall<T>>>[nrows, ncols]((_, _) => None);
    for col := 0 to ncols
      invariant forall row, c :: 0 <= row < leftMap.Length0 && 0 <= c < leftMap.Length1 ==>
                  leftMap[row, c]
                  == if row < nrows && c < col
                     then Some(Output(ComputeDisparity(leftImages[row, c], rightImages[row, c], dispMin, dispMax, useSecDisp), 0))
                     else None
      invariant forall row, c :: 0 <= row < nrows && 0 <= c < ncols ==>
                  rightMap[row, c]
                  == if c < col
                     then Some(Output(ComputeDisparity(leftImages[row, c], rightImages[row, c], dispMin, dispMax, useSecDisp), 1))
                     else None
    {
      for row := 0 to nrows
        invariant forall rw, c :: 0 <= rw < leftMap.Length0 && 0 <= c < leftMap.Length1 ==>
                    leftMap[rw, c]
                    == if rw < nrows && (c < col || (c == col && rw < row))
                       then Some(Output(ComputeDisparity(leftImages[rw, c], rightImages[rw, c], dispMin, dispMax, useSecDisp), 0))
                       else None
        invariant forall rw, c :: 0 <= rw < nrows && 0 <= c < ncols ==>
                    rightMap[rw, c]
                    == if c < col || (c == col && rw < row)
                       then Some(Output(ComputeDisparity(leftImages[rw, c], rightImages[rw, c], dispMin, dispMax, useSecDisp), 1))
                       else None
      {
        var call := CreateTask(ComputeDisparity(leftImages[row, col], rightImages[row, col], dispMin, dispMax, useSecDisp), 2);
        leftMap[row, col] := Some(Output(call, 0));
        rightMap[row, col] := Some(Output(call, 1));
      }
    }
    return Ok((leftMap, rightMap));
  }

  /**
   * `run` for an image dataset: the left overlaps copied and zeroed, then the task grid. Any
   * dataset type other than "arrays" only logs an error and then returns names it never
   * bound, which raises UnboundLocalError.
   */
  method Run<T>(datasetType: string, leftImages: array2<T>, rightImages: array2<T>, leftOverlaps: array3<real>,
                dispMin: int, dispMax: int, useSecDisp: bool)
    returns (r: Result<(array3<real>, array2<Option<Delayed<DisparityCall<T>>>>, array2<Option<Delayed<DisparityCall<T>>>>)>)
    ensures datasetType != "arrays" ==> r == Err(Raised("UnboundLocalError"))
    ensures datasetType == "arrays" ==>
              (r.Err? <==> rightImages.Length0 > 0 && rightImages.Length1 > 0
                           && (leftImages.Length0 < rightImages.Length0 || leftImages.Length1 < rightImages.Length1))
    ensures r.Ok? ==>
              var overlaps := r.value.0;
              fresh(overlaps)
              && overlaps.Length0 == leftOverlaps.Length0 && overlaps.Length1 == leftOverlaps.Length1
              && overlaps.Length2 == leftOverlaps.Length2
              && forall i, j, k :: 0 <= i < overlaps.Length0 && 0 <= j < overlaps.Length1 && 0 <= k < overlaps.Length2
                   ==> overlaps[i, j, k] == 0.0
    ensures r.Ok? ==>
              var (_, leftMap, rightMap) := r.value;
              leftMap.Length0 == leftImages.Length0 && leftMap.Length1 == leftImages.Length1
              && rightMap.Length0 == rightImages.Length0 && rightMap.Length1 == rightImages.Length1
              && forall row, col :: 0 <= row < rightMap.Length0 && 0 <= col < rightMap.Length1 ==>
                   leftMap[row, col] == Some(Output(ComputeDisparity(leftImages[row, col], rightImages[row, col], dispMin, dispMax, useSecDisp), 0))
                   && rightMap[row, col] == Some(Output(ComputeDisparity(leftImages[row, col], rightImages[row, col], dispMin, dispMax, useSecDisp), 1))
  {
    if datasetType != "arrays" {
      return Err(Raised("UnboundLocalError"));
    }
    var overlaps := new real[leftOverlaps.Length0, leftOverlaps.Length1, leftOverlaps.Length2]
                      ((i, j, k) requires 0 <= i < leftOverlaps.Length0 && 0 <= j < leftOverlaps.Length1 && 0 <= k < leftOverlaps.Length2
                         reads leftOverlaps => leftOverlaps[i, j, k]);
    ZeroOverlaps(overlaps);
    var maps := PlanDisparityTasks(leftImages, rightImages, dispMin, dispMax, useSecDisp);
    match maps
    case Err(e) => return Err(e);
    case Ok((leftMap, rightMap)) => return Ok((overlaps, leftMap, rightMap));
  }
}
