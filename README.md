# CARS core, modelled in Dafny

This project models the rule-bearing core of CARS, a stereo photogrammetry chain that turns pairs
of satellite images into digital surface models. It covers five parts.

- **Tiling and correspondence.** This is the region algebra of `cars/core/tiling.py`. It covers
  boxes `[xmin, ymin, xmax, ymax]` and `grid`, `split`, `crop`, `pad`, `empty`, `union`,
  `list_tiles`, `roi_to_start_and_size` and `snap_to_grid`. It also covers the edge-simplex filter,
  the candidate selection of `terrain_grid_to_epipolar`, and the choice in
  `get_corresponding_tiles_row_col` of the epipolar tiles one terrain cell needs.
- **Task execution.** This part covers the sequential cluster and the task wrappers. The disk
  wrapper hands out object ids from a counter. It names dumped tiles `DenseDO_<id>` /
  `SparseDO_<id>`, recognises those names, and loads and dumps task arguments and results through a
  storage map from path to value.
- **Application rules.**
  - SIFT sparse matching: defaults, margins, tile offsets and match filters.
  - Census SGM dense matching: defaults, the disparity override and rounding, and the task grid.
  - Bicubic resampling: `pre_run` and the task grid.
  - Triangulation: the product-key swap, the cloud coordinates and mask window, the matches frame,
    and the geoid longitude unwrap and coverage test.
- **Input checks.** `sensors_check_inputs`, `check_roi` and `generate_inputs`, plus the image and
  model tags of `input_parameters.py`.
- **The rasterization registry.** Subclasses register under a short name, and `__new__` dispatches
  on the configuration.

How Python's types are represented:

- A Python dict is an insertion-ordered sequence of `(key, value)` pairs over a small `Obj` value
  type (module `PyValue`).
- A numpy array the code updates in place is a Dafny `array`.
- A CarsDataset tile grid is a 2-D array of delayed task outputs.
- A Python exception is an `Err` of the `Wrappers.Result` type, carrying the exception's class and
  message.
- Coordinates and disparities are reals: float rounding is not modelled.
- Foreign engines are parameters of the operations that call them. These are the point-location
  searches, the Pandora loader's configuration, the geometry loader, and the task function called by
  a wrapper.

The configuration defaulting common to every `check_conf` is `PyValue.Overload`, "copy conf, then
set each default key to conf's value or the default". The lemmas about it are proved once and used
by every application.

## Model

| member | source | states |
|---|---|---|
| Tiling.IsEmpty | cars/core/tiling.py:167-176 | a region is `empty` exactly when it has no interior point |
| Tiling.Crop | cars/core/tiling.py:124-144 | for two non-empty regions the crop is empty exactly when they do not overlap, and when they overlap it is their intersection |
| Tiling.CropProperties | cars/core/tiling.py:124-144 | the crop stays in the span of a consistent second region, leaves a region already inside it unchanged, and is empty when the regions do not overlap |
| Tiling.NonEmptyCropInside | cars/core/tiling.py:167-176 | a crop that is not `empty` lies inside the cropping box |
| Tiling.Pad | cars/core/tiling.py:147-164 | zero margins give an equal box; non-negative margins give a box enclosing the input |
| Tiling.PadInverse | cars/core/tiling.py:158-162 | padding by the opposite margins undoes a padding |
| Tiling.Union | cars/core/tiling.py:179-194 | `union` succeeds exactly on a non-empty list; the result encloses every region, and each of its four edges is the same edge of some region |
| Tiling.UnionIsLeast | cars/core/tiling.py:189-192 | every box enclosing all the regions encloses their union |
| Tiling.Grid | cars/core/tiling.py:47-77 | the corner array has ceil(extent / split) + 1 rows and columns, and each corner is the one the nested loop computes |
| Tiling.GridCornerProperties | cars/core/tiling.py:65-77 | corners lie in the bounding box, x grows along a row, the first column is xmin and the last is xmax |
| Tiling.SplitsCover | cars/core/tiling.py:65-66 | ceil(extent / split) splits reach the far edge |
| Tiling.CellStartsInside | cars/core/tiling.py:105-119 | every split index below the count starts strictly inside the box |
| Tiling.Split | cars/core/tiling.py:80-121 | the split list is the cropped cells, x index outer and y index inner |
| Tiling.SplitCellsAt | cars/core/tiling.py:107-119 | position i * ny + j of the split list holds cell (i, j) and the list has nx * ny boxes |
| Tiling.SplitMatchesGrid | cars/core/tiling.py:80-121 | split cell (i, j) spans grid corner [j, i] to grid corner [j + 1, i + 1] and is never empty |
| Tiling.ListTiles | cars/core/tiling.py:197-246 | fails with ZeroDivisionError exactly for a zero tile size; otherwise the nested loops build exactly the margin-widened list of non-empty cropped tiles, x outer, y inner, for positive and negative tile sizes alike |
| Tiling.AppendColumn | cars/core/tiling.py:228-244 | the inner loop appends the non-empty cropped tiles of one column in increasing y |
| Tiling.ListTilesSound | cars/core/tiling.py:214-246 | every listed tile is non-empty, inside the largest region, the crop of its square, with indices in [floor(min / ts) - margin, ceil(max / ts) + margin) |
| Tiling.ListTilesMembership | cars/core/tiling.py:214-246 | a tile is listed exactly when its indices are in the widened range and its cropped square is not empty |
| Tiling.ListTilesNoMarginExact | cars/core/tiling.py:214-223 | with margin 0, exactly the non-empty cropped tiles whose square meets the region are listed |
| Tiling.ListTilesMarginMonotone | cars/core/tiling.py:214-223 | a wider margin lists every tile a narrower one lists |
| Tiling.RoiToStartAndSize | cars/core/tiling.py:249-269 | fails with ZeroDivisionError exactly for a zero resolution; otherwise the start is (xmin, ymax) and each size is the integer nearest to extent / resolution, the even one at a tie |
| Tiling.SnapToGrid | cars/core/tiling.py:272-295 | fails with ZeroDivisionError exactly for a zero resolution; otherwise every edge is a whole multiple of the resolution, each minimum lies at most one step below its input and each maximum at most one step above (the other way round for a negative resolution) |
| Tiling.OnGridUnique | cars/core/tiling.py:272-295 | two multiples of the resolution less than one step apart are equal |
| Tiling.SnapToGridUnique | cars/core/tiling.py:272-295 | the snapped box is the only box whose edges are multiples of the resolution within the promised step of the input, so "snap to entire step of resolution" determines the result |
| Tiling.SnappedSizesExact | cars/core/tiling.py:249-295 | after snapping with a non-zero resolution, `roi_to_start_and_size` yields exact whole-pixel sizes ceil(max / res) - floor(min / res) |
| Correspondence.Filtered | cars/core/tiling.py:418-445 | a filtered search result is the result itself or -1, and -1 stays -1 |
| Correspondence.FilterSimplicesOnTheEdges | cars/core/tiling.py:418-445 | each entry of the search array is overwritten in place with its filtered value |
| Correspondence.FilteredMeaning | cars/core/tiling.py:433-445 | an entry becomes -1 exactly when it was -1 or its three vertices all lie on one and the same grid side; otherwise it is unchanged |
| Correspondence.FilteredIdempotent | cars/core/tiling.py:433-445 | filtering twice changes nothing more |
| Correspondence.CornerSimplexKept | cars/core/tiling.py:441-445 | a boundary triangle whose vertices lie on two different sides is kept |
| Correspondence.SelectCandidates | cars/core/tiling.py:505-529 | with a simplex found, the candidates bound its three vertices; with -1, both candidates are the nearest neighbour; always lo <= hi |
| Correspondence.EnvelopeOf | cars/core/tiling.py:531-542 | the min / max over the four candidates bounds each of them and keeps points_min <= points_max |
| Correspondence.EnvelopeIsLeast | cars/core/tiling.py:531-542 | every box holding the four candidates holds the envelope |
| Correspondence.QueryEnvelopes | cars/core/tiling.py:505-544 | one envelope per query point, from its searches and nearest neighbours |
| Correspondence.TerrainGridToEpipolar | cars/core/tiling.py:448-544 | each query's envelope comes from its filtered searches, and points_min <= points_max for every query |
| Correspondence.CornerBoxBounds | cars/core/tiling.py:613-653 | the pairwise min / max of eight points holds all of them, and any box holding them encloses it |
| Correspondence.CellEnvelope | cars/core/tiling.py:613-668 | the epipolar region of a terrain cell is a consistent box holding the cell's eight corner samples, four minima and four maxima |
| Correspondence.CellEnvelopeIsBoundingBox | cars/core/tiling.py:613-668 | the epipolar region of a terrain cell is the smallest box holding its eight corner samples |
| Correspondence.InGridTilesMembership | cars/core/tiling.py:696-702 | the in-grid filter keeps exactly the tiles with 0 <= idy < rows and 0 <= idx < cols |
| Correspondence.Tag | cars/core/tiling.py:700-702 | each selected tile is recorded as (pair, idy, idx), one per listed tile |
| Correspondence.TagAllMembership | cars/core/tiling.py:604-702 | a selection is in the concatenation exactly when it is in the block of the pair it names |
| Correspondence.Selections | cars/core/tiling.py:671-702 | every selection of the first n pairs is tagged with one of those pairs |
| Correspondence.SelectionsStep | cars/core/tiling.py:604-702 | each further pair appends its tagged tiles after those of the pairs before it |
| Correspondence.PairContribution | cars/core/tiling.py:610-702 | one loop iteration adds, in step, left tile, right tile and [idy, idx] for each tile the pair selects |
| Correspondence.GetCorrespondingTilesRowCol | cars/core/tiling.py:557-712 | the terrain region spans corners [row, col] to [row + 1, col + 1], rank is col² + row², and the three lists hold, position by position, the selected tiles |
| Correspondence.SelectionsMembership | cars/core/tiling.py:671-702 | a tile of pair k is selected exactly when the pair's cropped region is non-empty, the tile is listed with the default margin 1 and its indices are in the pair's grid |
| Correspondence.PairMembership | cars/core/tiling.py:671-702 | the tiles one pair contributes are exactly those its selection rule admits |
| Correspondence.EmptyRegionContributesNothing | cars/core/tiling.py:678-682 | a pair whose cropped region is empty contributes no tile |
| Correspondence.SelectedTilesNonEmpty | cars/core/tiling.py:685-702 | every selected tile is a non-empty tile of its pair's largest region |
| Wrapper.IsDumpedObject | cars/orchestrator/cluster/wrapper.py:288-303 | a handle is a string at least as long as "DenseDO" |
| Wrapper.IsDumpedObjectIff | cars/orchestrator/cluster/wrapper.py:288-303 | a value is a handle exactly when it is a string containing "DenseDO" or "SparseDO" |
| Wrapper.LoadSingleTile | cars/orchestrator/cluster/wrapper.py:316-328 | a successful load returns what the storage holds at the path, of the requested kind |
| Wrapper.Load | cars/orchestrator/cluster/wrapper.py:306-328 | None stays None, a non-handle string is returned unchanged, a handle loads a tile, and a "DenseDO" path is read as arrays before points |
| Wrapper.CreatePath | cars/orchestrator/cluster/wrapper.py:349-373 | a path is built exactly for tiles and strings; other objects raise |
| Wrapper.CreatePathTile | cars/orchestrator/cluster/wrapper.py:359-371 | a tile's path is `<tmp_dir>/DenseDO_<id>` or `<tmp_dir>/SparseDO_<id>` by its kind |
| Wrapper.HandleRecognised | cars/orchestrator/cluster/wrapper.py:288-373 | every path `create_path` builds for a tile is recognised by `is_dumped_object` |
| Wrapper.HandleInjective | cars/orchestrator/cluster/wrapper.py:359-371 | tiles dumped under different ids get different paths |
| Wrapper.DumpSingleObject | cars/orchestrator/cluster/wrapper.py:331-346 | only array and point tiles can be dumped, and dumping stores the object at the path and changes nothing else |
| Wrapper.DumpOne | cars/orchestrator/cluster/wrapper.py:399-403 | a tile is written at its handle and the handle returned; anything else raises and writes nothing |
| Wrapper.DumpEntry | cars/orchestrator/cluster/wrapper.py:390-398 | one loop iteration does what the specification of step i says |
| Wrapper.DumpEntries | cars/orchestrator/cluster/wrapper.py:389-399 | the loop over several ids yields what the step-by-step specification yields |
| Wrapper.DumpSpec | cars/orchestrator/cluster/wrapper.py:376-405 | no id raises IndexError; one id succeeds exactly for a tile, written at its handle and returned as that path; several ids succeed exactly when the result is indexable and every entry is None or a tile, giving a tuple of one path per id; a dict or a tile result raises KeyError at `res[0]`, any other result without positions TypeError |
| Wrapper.DumpStringResult | cars/orchestrator/cluster/wrapper.py:376-405 | a str result under several ids raises IndexError when empty and otherwise the "Not an arrays or points" exception for its first character, writing nothing |
| Wrapper.Dump | cars/orchestrator/cluster/wrapper.py:376-405 | `dump` returns a tuple of paths for several ids and one path for one id, as its specification states |
| Wrapper.DumpPrefixOk | cars/orchestrator/cluster/wrapper.py:389-399 | the multi-output loop succeeds exactly when every id has an entry that is None or a tile |
| Wrapper.DumpPrefixPaths | cars/orchestrator/cluster/wrapper.py:389-399 | a successful loop yields one entry per id: None exactly where the result entry is None, the entry's handle elsewhere |
| Wrapper.DumpPrefixStored | cars/orchestrator/cluster/wrapper.py:389-399 | with distinct ids, every dumped entry is stored at its own handle afterwards |
| Wrapper.DumpPrefixFrame | cars/orchestrator/cluster/wrapper.py:389-399 | the loop writes nothing but the handles of the tiles it dumps |
| Wrapper.DumpRoundTrip | cars/orchestrator/cluster/wrapper.py:376-405 | a result dumped under several distinct ids loads back entry by entry from the returned paths |
| Wrapper.DumpSingleRoundTrip | cars/orchestrator/cluster/wrapper.py:401-403 | a result dumped under one id is a single handle that loads back the result |
| Wrapper.LoadCreated | cars/orchestrator/cluster/wrapper.py:306-373 | loading a tile's handle gives the tile back, provided the directory's own path holds no "DenseDO" |
| Wrapper.DenseDirectoryBreaksSparseLoad | cars/orchestrator/cluster/wrapper.py:316-328 | under a directory whose path contains "DenseDO", a dumped point tile fails to load |
| Wrapper.LoadArg | cars/orchestrator/cluster/wrapper.py:254-266 | lists are loaded element-wise with their nesting kept, handles are loaded, everything else is kept |
| Wrapper.LoadArgs | cars/orchestrator/cluster/wrapper.py:245-266 | the arguments keep their number and nesting, each loaded as `LoadArg` says; a failure comes from some argument |
| Wrapper.LoadArgsNoHandles | cars/orchestrator/cluster/wrapper.py:254-266 | arguments without handles are passed through unchanged |
| Wrapper.LoadKwargs | cars/orchestrator/cluster/wrapper.py:269-285 | the loop over keys yields the keyword arguments with each handle value loaded |
| Wrapper.LoadKwargsKeys | cars/orchestrator/cluster/wrapper.py:278-285 | the loaded keyword arguments keep the caller's keys in the caller's order |
| Wrapper.NoneWrapperFun | cars/orchestrator/cluster/wrapper.py:196-209 | without a "fun" entry the call raises KeyError("fun") |
| Wrapper.UnwrapTask | cars/orchestrator/cluster/wrapper.py:223-228 | a missing `id_list`, `fun` or `tmp_dir` raises KeyError for the first one missing, in that order |
| Wrapper.UnwrapTaskRest | cars/orchestrator/cluster/wrapper.py:223-228 | with all three present, the three are removed and every other entry is kept |
| Wrapper.DiskWrapperFun | cars/orchestrator/cluster/wrapper.py:212-242 | the setup is taken out, the arguments loaded and the function called; an error or a None result writes nothing, and any other result is dumped under the task's ids when they are ints and the directory a str |
| Wrapper.Kwargs.SetItem | cars/orchestrator/cluster/wrapper.py:177-180 | `kwargs[k] = v` updates the caller's dict in place |
| Wrapper.WrapperNone.GetFunctionAndKwargs | cars/orchestrator/cluster/wrapper.py:102-121 | returns the none wrapper and the caller's own dict with `fun` added |
| Wrapper.WrapperDisk.constructor | cars/orchestrator/cluster/wrapper.py:135-146 | a new wrapper starts its counter at 0 with directory `<tmp_dir>/tmp` |
| Wrapper.WrapperDisk.IssueIds | cars/orchestrator/cluster/wrapper.py:172-175 | `nout` consecutive ids from the counter, the counter advanced by exactly `nout`, none issued before |
| Wrapper.WrapperDisk.GetFunctionAndKwargs | cars/orchestrator/cluster/wrapper.py:156-182 | fresh consecutive ids, the counter advanced by `nout`, and `id_list`, `fun`, `tmp_dir` added to the caller's dict in place |
| Wrapper.WrapAppends | cars/orchestrator/cluster/wrapper.py:177-180 | adding the three entries to a dict without them appends them in order |
| Wrapper.UnwrapTaskInverse | cars/orchestrator/cluster/wrapper.py:156-228 | the disk wrapper's task sees exactly the caller's keyword arguments |
| Wrapper.NoneWrapperInverse | cars/orchestrator/cluster/wrapper.py:102-209 | the none wrapper's call sees exactly the caller's keyword arguments |
| SequentialCluster.CheckConf | cars/orchestrator/cluster/sequential_cluster.py:64-80 | the checked configuration keeps conf's keys first, in their order, and names a mode |
| SequentialCluster.CheckConfMode | cars/orchestrator/cluster/sequential_cluster.py:64-80 | `mode` is conf's own or "sequential", and every other entry is kept |
| SequentialCluster.CheckConfHasMode | cars/orchestrator/cluster/sequential_cluster.py:72-80 | the checked configuration always names a mode |
| SequentialCluster.CreateTask | cars/orchestrator/cluster/sequential_cluster.py:88-95 | the created task is the function itself |
| SequentialCluster.CreateTaskIgnoresNout | cars/orchestrator/cluster/sequential_cluster.py:88-95 | the created task does not depend on `nout` |
| SequentialCluster.StartTasks | cars/orchestrator/cluster/sequential_cluster.py:97-103 | the task list is returned unchanged, order included |
| SequentialCluster.Scatter | cars/orchestrator/cluster/sequential_cluster.py:105-111 | the data is returned unchanged whatever `broadcast` is |
| SequentialCluster.FutureIterator | cars/orchestrator/cluster/sequential_cluster.py:113-121 | the generator yields exactly the list's elements, in order |
| Sift.CheckConf | cars/applications/sparse_matching/sift.py:122-171 | the checked configuration keeps conf's keys first, in their order, and names every SIFT parameter |
| Sift.CheckConfDefault | cars/applications/sparse_matching/sift.py:130-171 | each parameter left out gets its default (disparity margin 0.02, elevation bounds -1000 / 1000, error bound 10.0, bias 0.0, back matching on, matches not saved, …) |
| Sift.CheckConfKeepsGiven | cars/applications/sparse_matching/sift.py:130-171 | each parameter given is kept as given |
| Sift.GetMargins | cars/applications/sparse_matching/sift.py:236-271 | left margins are all zero; the right margins are floor(b) on the first three sides and ceil(b) on the fourth, b = bound + bias |
| Sift.GetMarginsRounding | cars/applications/sparse_matching/sift.py:246-271 | the fourth right margin exceeds the others by one exactly when b is fractional |
| Sift.DispBounds | cars/applications/sparse_matching/sift.py:385-390 | the disparity bounds times the ratio give back the elevation bounds; a zero ratio raises |
| Sift.DispBoundsOrdered | cars/applications/sparse_matching/sift.py:385-390 | a positive ratio keeps the bounds ordered |
| Sift.MaxColSize | cars/applications/sparse_matching/sift.py:395-397 | the widest window of the grid; an empty grid raises |
| Sift.OffsetRange | cars/applications/sparse_matching/sift.py:398-399 | the offsets fail exactly for a zero width |
| Sift.OffsetsCoverDisparities | cars/applications/sparse_matching/sift.py:398-401 | every disparity of the range lies between min_offset · w and max_offset · w |
| Sift.Offsets | cars/applications/sparse_matching/sift.py:401 | `range(min_offset, max_offset + 1)` runs inclusively through the offsets |
| Sift.NeighbourTiles | cars/applications/sparse_matching/sift.py:468-497 | at most one right tile per offset, each in the left tile's row and in an existing column |
| Sift.NeighbourTilesIff | cars/applications/sparse_matching/sift.py:468-497 | right tile t is matched against (row, col) exactly when it is (row, col + offset) for an offset of the list with an existing column |
| Sift.NeighbourTilesIncreasing | cars/applications/sparse_matching/sift.py:468-497 | with increasing offsets, a left tile's tasks come in increasing right column |
| Sift.RunNeighbours | cars/applications/sparse_matching/sift.py:462-497 | with the offsets of `run`, (row, c) is matched exactly when 0 <= c < ncols and c - col is in [min_offset, max_offset] |
| Sift.CollectNeighbours | cars/applications/sparse_matching/sift.py:468-497 | the offset loop creates the neighbour tasks in order |
| Sift.PlanMatchTasks | cars/applications/sparse_matching/sift.py:462-497 | every left tile of the grid gets its neighbour tasks |
| Sift.Filter | cars/applications/sparse_matching/sift.py:614-621 | a mask keeps no more elements than it is given, each of them given and accepted |
| Sift.FilterIff | cars/applications/sparse_matching/sift.py:614-621 | a boolean mask keeps exactly the elements it accepts |
| Sift.FilterTwice | cars/applications/sparse_matching/sift.py:614-621 | two masks in turn keep what both accept, in order |
| Sift.FilterAppend | cars/applications/sparse_matching/sift.py:587-621 | masking a concatenation masks each part |
| Sift.FilterKeepsAll | cars/applications/sparse_matching/sift.py:775-791 | a mask that accepts everything changes nothing |
| Sift.DispRangeFilter | cars/applications/sparse_matching/sift.py:775-791 | the filtered matches are matches of the input, no more of them, and with both bounds each has its disparity within the bounds |
| Sift.DispRangeFilterMeaning | cars/applications/sparse_matching/sift.py:775-791 | with both bounds, exactly the matches with lower <= m[2] - m[0] <= upper are kept, in order; otherwise nothing is filtered |
| Sift.FilterMatches | cars/applications/sparse_matching/sift.py:609-652 | a success keeps at least 5 and at most all of the matches, each within the bound around the shift; a failure is a ValueError |
| Sift.FilterMatchesMeaning | cars/applications/sparse_matching/sift.py:609-652 | `filter_matches` keeps exactly the matches with -bound <= error - shift <= bound, and raises ValueError when fewer than 5 remain |
| Sift.FilterMatchesIgnoresMedian | cars/applications/sparse_matching/sift.py:609-612 | with no bias allowed, the shift is 0 whatever the median |
| Sift.TilesConcatMembership | cars/applications/sparse_matching/sift.py:581-591 | the concatenated matches are exactly those of some tile |
| Sift.ConcatTiles | cars/applications/sparse_matching/sift.py:581-591 | the loop concatenates the tiles row by row, column by column |
| CensusSgm.CheckConf | cars/applications/dense_matching/census_mccnn_sgm.py:106-147 | the checked configuration keeps conf's keys first, in their order, and names every matching parameter and `loader_conf` |
| CensusSgm.CheckConfDefault | cars/applications/dense_matching/census_mccnn_sgm.py:114-137 | each parameter left out gets its default: method census_sgm, tile sizes 300 and 1500, margin 60 %, no secondary disparity, no elevation offsets, no saving |
| CensusSgm.CheckConfKeepsGiven | cars/applications/dense_matching/census_mccnn_sgm.py:106-137 | each parameter given is kept, except `loader_conf` |
| CensusSgm.CheckConfLoaderConf | cars/applications/dense_matching/census_mccnn_sgm.py:139-147 | `loader_conf` is the loader's configuration, whatever the user gave |
| CensusSgm.GetDispRange | cars/applications/dense_matching/census_mccnn_sgm.py:179-242 | the range is floor / ceil of the possibly overridden bounds; a zero ratio with an override raises ZeroDivisionError, and a missing estimate raises TypeError |
| CensusSgm.GetDispRangeContains | cars/applications/dense_matching/census_mccnn_sgm.py:232-234 | the integer range contains the real range it was rounded from |
| CensusSgm.GetDispRangeOverrideIgnoresEstimate | cars/applications/dense_matching/census_mccnn_sgm.py:183-220 | with an offset set, that side's bound does not depend on the estimate |
| CensusSgm.GetDispRangeNarrowing | cars/applications/dense_matching/census_mccnn_sgm.py:183-200 | an override above the estimated minimum still wins, narrowing the range |
| CensusSgm.GetDispRangeNoOffsets | cars/applications/dense_matching/census_mccnn_sgm.py:232-234 | without offsets the estimates are only rounded outwards |
| CensusSgm.ZeroOverlaps | cars/applications/dense_matching/census_mccnn_sgm.py:371 | `overlaps *= 0` sets every entry of the array to zero in place |
| CensusSgm.ZeroRow | cars/applications/dense_matching/census_mccnn_sgm.py:371 | one first index of the overlaps array zeroed, every other entry unchanged |
| CensusSgm.PlanDisparityTasks | cars/applications/dense_matching/census_mccnn_sgm.py:461-483 | one two-output task per (row, col) of the right map's shape, outputs 0 and 1 in the left and right maps; a left grid smaller than the right one raises IndexError |
| CensusSgm.Run | cars/applications/dense_matching/census_mccnn_sgm.py:366-490 | for "arrays" datasets the left overlaps are zeroed and the task grid filled; other dataset types end in UnboundLocalError |
| BicubicResampling.CheckConf | cars/applications/resampling/bicubic_resampling.py:99-116 | the checked configuration keeps conf's keys first, in their order, and names every resampling parameter |
| BicubicResampling.CheckConfDefault | cars/applications/resampling/bicubic_resampling.py:108-116 | each parameter left out gets its default: method bicubic, tiles of 500, both save flags False |
| BicubicResampling.CheckConfKeepsGiven | cars/applications/resampling/bicubic_resampling.py:99-116 | each parameter given is kept as given |
| BicubicResampling.PreRunCell | cars/applications/resampling/bicubic_resampling.py:178-194 | split region i * ny + j of the whole image is the non-empty box between grid corners [j, i] and [j + 1, i + 1] |
| BicubicResampling.PreRunMatchesGrid | cars/applications/resampling/bicubic_resampling.py:178-194 | split and grid with the same arguments match cell for cell |
| BicubicResampling.PreRun | cars/applications/resampling/bicubic_resampling.py:150-194 | the largest region is [0, 0, size_x, size_y]; the tile size is the optimum when given, else `epi_tile_size`; the regions are the split of that box at the tile size, the grid has ceil(size / tile) + 1 corners per axis at the grid corners of that box, and the two match cell for cell |
| BicubicResampling.RunMargins | cars/applications/resampling/bicubic_resampling.py:300-307 | without margins, both images get zero margins on all four sides; given margins are used as given |
| BicubicResampling.PlanResamplingTasks | cars/applications/resampling/bicubic_resampling.py:486-525 | one two-output task per tile of the tiling grid, on that tile's overlaps, window and the margins |
| TriangulationTools.ContainsChar | cars/applications/triangulation/triangulation_tools.py:118-125 | `"1" in key` holds exactly when the character occurs in the key |
| TriangulationTools.ReplaceChar | cars/applications/triangulation/triangulation_tools.py:119-131 | `replace` of one character by another keeps the length and changes exactly the occurrences |
| TriangulationTools.SwapKey | cars/applications/triangulation/triangulation_tools.py:116-133 | the new key has the old key's length and differs from it only where a product digit stood |
| TriangulationTools.SwapKeyInvolution | cars/applications/triangulation/triangulation_tools.py:116-133 | swapping twice gives the key back exactly when it does not hold both product digits |
| TriangulationTools.SwapRootedKey | cars/applications/triangulation/triangulation_tools.py:116-133 | a digit-free root followed by one product key swaps to the other key |
| TriangulationTools.SwapTags | cars/applications/triangulation/triangulation_tools.py:116-133 | img1 / img2 and model1 / model2 trade places |
| TriangulationTools.SwapKeys | cars/applications/triangulation/triangulation_tools.py:116-133 | the reversed configuration has the swapped key of every entry |
| TriangulationTools.ReverseConfiguration | cars/applications/triangulation/triangulation_tools.py:116-133 | the loop builds the configuration with every key swapped in order |
| TriangulationTools.SwapKeysGet | cars/applications/triangulation/triangulation_tools.py:116-133 | values move with their keys unchanged: the reversed configuration holds under k what the original holds under the swapped k |
| TriangulationTools.SwapKeysOneProduct | cars/applications/triangulation/triangulation_tools.py:116-133 | every key of the reversed configuration names at most one product |
| TriangulationTools.SwapKeysTwice | cars/applications/triangulation/triangulation_tools.py:116-133 | reversing twice reads back the original configuration |
| TriangulationTools.SwapKeysUnique | cars/applications/triangulation/triangulation_tools.py:116-133 | the reversed configuration has no duplicate keys |
| TriangulationTools.SecondGrid | cars/applications/triangulation/triangulation_tools.py:95-100 | snapping to image 1 uses the uncorrected grid, even when it is missing |
| TriangulationTools.Triangulate | cars/applications/triangulation/triangulation_tools.py:95-140 | the reference cloud on "roi" with grids (1, 2); with a secondary disparity, the secondary cloud from the reversed configuration, the grids exchanged, on "roi_with_margins" |
| TriangulationTools.Range | cars/applications/triangulation/triangulation_tools.py:258-259 | `range(lo, hi)` holds lo, lo + 1, … up to hi excluded |
| TriangulationTools.CloudCoordinates | cars/applications/triangulation/triangulation_tools.py:258-259 | rows are range(roi[1], roi[3]) and columns range(roi[0], roi[2]); a short ROI raises |
| TriangulationTools.CloudCoordinatesInRoi | cars/applications/triangulation/triangulation_tools.py:258-259 | every coordinate lies in the ROI, and an ordered ROI gives its exact height and width |
| TriangulationTools.RefRoi | cars/applications/triangulation/triangulation_tools.py:275-294 | the whole mask [0, 0, ncol, nrow] for "roi_with_margins", else a 4-entry window; short margins raise |
| TriangulationTools.RefRoiWholeMargins | cars/applications/triangulation/triangulation_tools.py:283-294 | with whole margins the window is [-m0, -m1, ncol - m2, nrow - m3] |
| TriangulationTools.TriangulateMatchesFrame | cars/applications/triangulation/triangulation_tools.py:199-213 | rows 0 … n - 1, the single column 0, a mask of 255 everywhere and EPSG 4326; another width raises |
| TriangulationTools.Unwrap | cars/applications/triangulation/triangulation_tools.py:357-358 | a longitude is kept or shifted by 360, lands at 0 or above from -360 on, and stays below 360 |
| TriangulationTools.UnwrapRange | cars/applications/triangulation/triangulation_tools.py:357-358 | the unwrapped longitude names the same meridian and lands in [0, 360) for inputs in [-360, 360) |
| TriangulationTools.UnwrapLongitudes | cars/applications/triangulation/triangulation_tools.py:357-358 | a fresh copy in which exactly the negative longitudes gain 360 |
| TriangulationTools.CoverageErrorAsWritten | cars/applications/triangulation/triangulation_tools.py:361-373 | the test as written raises only on a cloud the geoid really fails to cover: it misses errors but never raises a false one |
| TriangulationTools.CoverageAsWrittenIgnoresLongitudes | cars/applications/triangulation/triangulation_tools.py:361-373 | as written, covered latitudes never raise, whatever the longitudes |
| TriangulationTools.CoverageErrorMeaning | cars/applications/triangulation/triangulation_tools.py:361-373 | the intended test raises exactly when some cloud coordinate lies outside the geoid |
| TriangulationTools.CoverageCounterexample | cars/applications/triangulation/triangulation_tools.py:361-373 | a cloud at longitude 400 over a 0–360 geoid passes the written test and fails the intended one |
| TriangulationTools.CheckGeoidCoverage | cars/applications/triangulation/triangulation_tools.py:361-373 | succeeds exactly when the intended coverage test finds no gap, so a covered cloud passes and success means the geoid covers the cloud on both axes; failure raises the coverage error |
| SensorsInputs.InputDefaults | cars/pipelines/sensor_to_full_resolution_dsm/sensors_inputs.py:55-78 | the defaulted configuration keeps conf's keys first, in their order, and names every optional input and the geoid |
| SensorsInputs.InputDefaultsUnique | cars/pipelines/sensor_to_full_resolution_dsm/sensors_inputs.py:58-66 | the input defaults name five distinct keys, none of them the geoid |
| SensorsInputs.InputDefaultsDefault | cars/pipelines/sensor_to_full_resolution_dsm/sensors_inputs.py:58-66 | an input left out gets its default: epsg None, initial_elevation None, default_alt 0, roi None, check_inputs False |
| SensorsInputs.InputDefaultsKeepsGiven | cars/pipelines/sensor_to_full_resolution_dsm/sensors_inputs.py:55-78 | every input given, the geoid included, keeps its value |
| SensorsInputs.InputDefaultsGeoid | cars/pipelines/sensor_to_full_resolution_dsm/sensors_inputs.py:68-76 | without a geoid, the internal geoid file is used |
| SensorsInputs.CheckFilledWithNone | cars/pipelines/sensor_to_full_resolution_dsm/sensors_inputs.py:149-155 | the loop with `break` reports exactly whether every mask class is None |
| SensorsInputs.UpdatedMaskClasses | cars/pipelines/sensor_to_full_resolution_dsm/sensors_inputs.py:163-180 | the normalised mask classes keep the given classes first, in their order, and name all three classes |
| SensorsInputs.UpdatedMaskClassesGet | cars/pipelines/sensor_to_full_resolution_dsm/sensors_inputs.py:163-180 | the normalised mask classes hold all three classes, a given class keeping its value and a missing one None; other entries are kept |
| SensorsInputs.UpdatedMaskClassesFilledWithNone | cars/pipelines/sensor_to_full_resolution_dsm/sensors_inputs.py:163-180 | normalising all-None mask classes gives all-None mask classes |
| SensorsInputs.CheckSensor | cars/pipelines/sensor_to_full_resolution_dsm/sensors_inputs.py:114-180 | the per-sensor step, with its mask-class loop, yields the normalised sensor or the error the code raises |
| SensorsInputs.NormaliseSensor | cars/pipelines/sensor_to_full_resolution_dsm/sensors_inputs.py:114-161 | a normalised sensor came from a dict with an image, keeps its keys first, in their order, and names colour, geomodel filters, no-data value, mask and mask classes |
| SensorsInputs.NormaliseSensorRaises | cars/pipelines/sensor_to_full_resolution_dsm/sensors_inputs.py:145-161 | a sensor is refused exactly when some mask class is not None while its mask is None |
| SensorsInputs.NormaliseSensorDefaults | cars/pipelines/sensor_to_full_resolution_dsm/sensors_inputs.py:114-143 | the normalised sensor has color (the image by default), geomodel_filters (None), no_data (-9999), mask (None) and the normalised mask classes |
| SensorsInputs.NormaliseSensorKeepsOthers | cars/pipelines/sensor_to_full_resolution_dsm/sensors_inputs.py:114-180 | every other entry of a sensor is kept |
| SensorsInputs.NormaliseSensorNoMaskNoClasses | cars/pipelines/sensor_to_full_resolution_dsm/sensors_inputs.py:145-180 | a normalised sensor without a mask has only None mask classes |
| SensorsInputs.NormaliseSensors | cars/pipelines/sensor_to_full_resolution_dsm/sensors_inputs.py:114-190 | every sensor is normalised in order, keeping its key; the first sensor that fails stops the loop with its error |
| SensorsInputs.NormalisedSensorKeys | cars/pipelines/sensor_to_full_resolution_dsm/sensors_inputs.py:114-190 | normalisation keeps the sensor keys, in order |
| SensorsInputs.PairingError | cars/pipelines/sensor_to_full_resolution_dsm/sensors_inputs.py:193-199 | an entry that is not two keys fails to unpack; otherwise the first unknown key, key1 before key2, is reported as "<key> not in sensors images" |
| SensorsInputs.ValidatePairing | cars/pipelines/sensor_to_full_resolution_dsm/sensors_inputs.py:193-199 | the check passes exactly when every entry names two sensors; otherwise it raises for the first bad entry |
| SensorsInputs.Elements | cars/pipelines/sensor_to_full_resolution_dsm/sensors_inputs.py:275 | iterating a list, tuple, string or dict yields its items, characters or keys |
| SensorsInputs.CheckRoi | cars/pipelines/sensor_to_full_resolution_dsm/sensors_inputs.py:266-284 | None is accepted; otherwise the ROI must unpack into two parts whose box has four entries, and each failure raises its own error |
| SensorsInputs.CheckRoiBoxAndEpsg | cars/pipelines/sensor_to_full_resolution_dsm/sensors_inputs.py:274-279 | a (box, epsg) ROI is accepted exactly when the box has four entries |
| SensorsInputs.MergedKey | cars/pipelines/sensor_to_full_resolution_dsm/sensors_inputs.py:431 | the pair key is key1, an underscore, then key2 |
| SensorsInputs.MergedKeyInjective | cars/pipelines/sensor_to_full_resolution_dsm/sensors_inputs.py:431 | pairs whose first keys have no underscore get distinct merged keys |
| SensorsInputs.MergedKeyAmbiguous | cars/pipelines/sensor_to_full_resolution_dsm/sensors_inputs.py:431 | without that condition two different pairs can share a merged key |
| SensorsInputs.GenerateInputs | cars/pipelines/sensor_to_full_resolution_dsm/sensors_inputs.py:411-436 | one (merged key, sensor1, sensor2) per pairing entry, in order; a key that is not a sensor raises KeyError for the first bad entry |
| InputParameters.CreateImgTag | cars/conf/input_parameters.py:75-87 | the tag is "img" followed by the key, for any key |
| InputParameters.CreateModelTag | cars/conf/input_parameters.py:90-101 | the tag is "model" followed by the key, for any key |
| InputParameters.DerivedTags | cars/conf/input_parameters.py:106-113 | the derived tags are "img1", "img2", "model1", "model2", all distinct |
| InputParameters.TagsInjective | cars/conf/input_parameters.py:75-101 | different keys give different tags |
| InputParameters.ImgTagIsNoModelTag | cars/conf/input_parameters.py:75-101 | no image tag is a model tag |
| PointCloudRasterization.PointCloudRasterization.constructor | cars/applications/rasterization/point_cloud_rasterization.py:38-39 | the class starts with an empty registry |
| PointCloudRasterization.PointCloudRasterization.Register | cars/applications/rasterization/point_cloud_rasterization.py:82-85 | a subclass is registered under its short name, replacing any earlier one |
| PointCloudRasterization.PointCloudRasterization.New | cars/applications/rasterization/point_cloud_rasterization.py:41-80 | `__new__` returns the dispatch outcome, and a success is an instance of a registered class |
| PointCloudRasterization.SelectedMethod | cars/applications/rasterization/point_cloud_rasterization.py:50-57 | a falsy configuration selects "simple_gaussian"; otherwise the method is the configuration's own "method" string, and KeyError("method") is raised exactly when it has none |
| PointCloudRasterization.Dispatch | cars/applications/rasterization/point_cloud_rasterization.py:50-80 | an instance is always of a registered class; a selected method succeeds exactly when it is registered, and a failed selection is passed on |
| PointCloudRasterization.DispatchDefault | cars/applications/rasterization/point_cloud_rasterization.py:51-56 | a falsy configuration selects "simple_gaussian": its class if registered, KeyError otherwise |
| PointCloudRasterization.DispatchNamedMethod | cars/applications/rasterization/point_cloud_rasterization.py:57-58 | a non-empty configuration selects the class registered under its "method" |
| PointCloudRasterization.DispatchUnregisteredMethod | cars/applications/rasterization/point_cloud_rasterization.py:60-70 | an unregistered method raises KeyError naming it |
| PointCloudRasterization.DispatchMissingMethod | cars/applications/rasterization/point_cloud_rasterization.py:57-58 | a non-empty configuration without "method" raises KeyError("method") |
| PointCloudRasterization.DispatchAfterRegister | cars/applications/rasterization/point_cloud_rasterization.py:78-85 | registering makes that name dispatch to the new class and leaves every other outcome unchanged |
| PointCloudRasterization.DefaultRegisteredNeverFails | cars/applications/rasterization/point_cloud_rasterization.py:51-85 | once "simple_gaussian" is registered, a falsy configuration always succeeds |

## Left out

- json_checker schema validation in every `check_conf` and in `sensors_check_inputs` is not modelled. A value of the wrong shape appears only as the error of the first operation that needs the shape. `Wrappers.Error` has no AttributeError: SensorsInputs.NormaliseSensor reports as TypeError the AttributeError the source raises for a sensor that is not a dict (`.get`, cars/pipelines/sensor_to_full_resolution_dsm/sensors_inputs.py:116) and for mask classes that are not a dict (`.items()`, lines 150-152).
- Logging in every file is not modelled. It has no effect on results.
- Disk I/O is an abstract map from path to value. This covers `save_single_tile`, `load_single_tile`, `os.makedirs` and `cleanup`.
- Floating point is modelled as exact reals. numpy `round` is round-half-even on reals.
- Foreign engines are inputs or parameters. They are:
  - scipy `Delaunay`, `tsearch` and `cKDTree` (their triangulation, search results and nearest-neighbour indices are inputs);
  - the osr geographic-CRS check;
  - `dataset_matching` and `compute_disparity`;
  - `dense_matching_tools.get_margins`;
  - the Pandora loader (its configuration is the `loaderConf` parameter);
  - the geometry loader's `triangulate`;
  - `epipolar_rectify_images`.
- The median in `filter_matches` is a parameter. The geoid interpolation is not modelled.
- Not modelled, by design:
  - `terrain_region_to_epipolar`, `region_hash_string` and `get_paired_regions_as_geodict`;
  - orchestrator plumbing (`add_to_save_lists`, `update_out_info`, `breakpoint`);
  - CarsDataset attributes other than the shapes, overlaps and tiling grids the loops read.
- `parse_roi_file`, `make_relative_path_absolute`, `check_input_data` and `check_srtm` are file handling. `sensors_check_inputs` is modelled as if `config_json_dir` were None and the ROI were not a file name.
- `mask_classes.check_mask_classes`: cars/conf/mask_classes.py is not part of this model.
- SensorsInputs.NormaliseSensors works on values. The source mutates the caller's nested sensor dicts in place, so an exception leaves earlier sensors already rewritten. The model does not capture that partial mutation or the aliasing.
- SensorsInputs.GenerateInputs takes the pairing and the sensors already read out of the configuration. A configuration without them raises KeyError in the source.
- SensorsInputs.Elements covers lists, tuples, strings and dicts. Any other value counts as not iterable.
- PointCloudRasterization.New treats a non-string method as a TypeError. Python raises KeyError for a hashable non-string and TypeError for an unhashable one.
- Classes are modelled by their names, and the class-level registry by a map field.
- BicubicResampling.PreRun, Tiling.Grid and Tiling.Split require a positive tile size, although the bicubic `check_conf` only checks that `epi_tile_size` is an int (cars/applications/resampling/bicubic_resampling.py:118-122). In the source, a zero size raises ZeroDivisionError at `math.ceil(extent / xsplit)` (cars/core/tiling.py:65-66 and 102-103). A negative size gives a split count of zero or less: `split` then returns no region (the empty `range` at tiling.py:107), and `grid` builds an array with at most one corner per axis, or raises ValueError when `nb_splits + 1` is negative (tiling.py:68-70). The model covers none of these cases. Tiling.Grid and Tiling.Split also require an ordered box (`xmin <= xmax`, `ymin <= ymax`); their only callers pass [0, 0, size_x, size_y] (bicubic_resampling.py:178-194).
- Tiling.RoiToStartAndSize, Tiling.SnapToGrid and Tiling.ListTiles report a zero divisor as the ZeroDivisionError of Python floats. With numpy float inputs `roi_to_start_and_size` would instead divide to an infinity and raise OverflowError (ValueError for 0 / 0) at `int()`.
- Wrapper.DiskWrapperFun returns a TypeError of its own when `id_list` is not a list or tuple of ints or `tmp_dir` is not a str. The source goes on: `repr` accepts any id, and it raises only where `len` or `os.path.join` fails. WrapperDisk.GetFunctionAndKwargs always sets int ids and a str directory.
- CensusSgm.PlanDisparityTasks reports the IndexError before filling any tile. The source raises it part way through, after filling the earlier tiles.
- SIFT's `run` loop is modelled by the tiles each task pairs (Sift.PlanMatchTasks). The task arguments, the saving infos and the later dataset assignments are not modelled.
- The mask slice `values[ref_roi[1]:ref_roi[3], ref_roi[0]:ref_roi[2]]` in `compute_points_cloud` is not modelled. The window it reads is modelled (TriangulationTools.RefRoi).
- `compute_matches` temporarily overwrites and then restores mask values. That is not modelled: only its disparity filter is.
- Other cluster backends and all concurrency are not modelled. Only the sequential backend is.

## Findings

| source | as written | input that shows it | evidently intended | confidence | as-written member | corrected member |
|---|---|---|---|---|---|---|
| cars/applications/triangulation/triangulation_tools.py:361-373 | `not lat_min <= lat <= lat_max and lon_min <= lon <= lat_max`: `not` binds only the latitude chain, and the longitude chain ends at `lat_max`, so a cloud whose latitudes are covered never raises | geoid lat -90..90, lon 0..360; cloud at latitude 0, longitude 400 | raise when either the latitudes or the longitudes (compared with `lon_max`) are not covered | not executed | TriangulationTools.CoverageErrorAsWritten, TriangulationTools.CoverageCounterexample | TriangulationTools.CheckGeoidCoverage |
