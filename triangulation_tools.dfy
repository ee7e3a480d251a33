/**
 * The index and key bookkeeping of cars/applications/triangulation/triangulation_tools.py: the
 * input configuration with products 1 and 2 exchanged (used to triangulate the secondary
 * disparity map), the grid chosen when snapping to image 1, the row and column coordinates and
 * the mask crop window of `compute_points_cloud`, the frame of `triangulate_matches`, and the
 * longitude unwrapping and coverage test of `geoid_offset`. The triangulation itself, done by
 * the geometry loader, is not part of this model.
 */
module TriangulationTools {
  import opened Arith
  import opened Wrappers
  import opened PyValue
  import opened PyStr
  import opened InputParameters

  // ---------------------------------------------------------------------------------------
  // The product-key swap of `triangulate`

  /** A single-character pattern occurs in a string exactly when its character does. */
  lemma ContainsChar(s: string, c: char)
    ensures Contains(s, [c]) <==> c in s
  {
    ContainsIff(s, [c]);
    if c in s {
      var i :| 0 <= i < |s| && s[i] == c;
      assert OccursAt(s, [c], i);
    }
    if exists i :: OccursAt(s, [c], i) {
      var i :| OccursAt(s, [c], i);
      assert s[i] == s[i..i + 1][0];
    }
  }

  /**
   * `s.replace(old, new)` for one-character patterns `from` and `to`, the only case the key swap needs
   * (both product keys are one character long): every `from` character becomes `to`.
   */
  function ReplaceChar(s: string, from: char, to: char): (r: string)
    ensures |r| == |s|
    ensures forall i :: 0 <= i < |s| ==> r[i] == if s[i] == from then to else s[i]
  {
    seq(|s|, i requires 0 <= i < |s| => if s[i] == from then to else s[i])
  }

  /**
   * The new key of one configuration entry: with product key "1" in it, every "1" becomes
   * "2"; otherwise, with "2" in it, every "2" becomes "1"; any other key is kept.
   */
  function SwapKey(key: string): (r: string)
    ensures |r| == |key|
    ensures forall i :: 0 <= i < |key| && key[i] != '1' && key[i] != '2' ==> r[i] == key[i]
  {
    if Contains(key, PRODUCT1_KEY) then ReplaceChar(key, PRODUCT1_KEY[0], PRODUCT2_KEY[0])
    else if Contains(key, PRODUCT2_KEY) then ReplaceChar(key, PRODUCT2_KEY[0], PRODUCT1_KEY[0])
    else key
  }

  /** A key naming at most one of the two products. */
  predicate OneProduct(key: string) {
    !('1' in key && '2' in key)
  }

  /**
   * Swapping twice gives the key back exactly when it does not name both products: a key with
   * both digits loses its "2"s to the first swap and gets "1"s where they were.
   */
  lemma {:induction false} SwapKeyInvolution(key: string)
    ensures SwapKey(SwapKey(key)) == key <==> OneProduct(key)
    ensures OneProduct(SwapKey(key))
  {
    ContainsChar(key, '1');
    ContainsChar(key, '2');
    var once := SwapKey(key);
    ContainsChar(once, '1');
    ContainsChar(once, '2');
    if '1' in key {
      var i :| 0 <= i < |key| && key[i] == '1';
      assert once[i] == '2';
      assert '1' !in once by {
        forall j | 0 <= j < |once| ensures once[j] != '1' { }
      }
      if '2' in key {
        var j :| 0 <= j < |key| && key[j] == '2';
        assert SwapKey(once)[j] == '1';
      } else {
        assert SwapKey(once) == key;
      }
    } else if '2' in key {
      var i :| 0 <= i < |key| && key[i] == '2';
      assert once[i] == '1';
      assert '2' !in once by {
        forall j | 0 <= j < |once| ensures once[j] != '2' { }
      }
      assert SwapKey(once) == key;
    }
  }

  /** A tag root without product digits, followed by one product key, swaps to the other key. */
  lemma {:induction false} SwapRootedKey(root: string)
    requires '1' !in root && '2' !in root
    ensures SwapKey(root + PRODUCT1_KEY) == root + PRODUCT2_KEY
    ensures SwapKey(root + PRODUCT2_KEY) == root + PRODUCT1_KEY
  {
    var k1, k2 := root + PRODUCT1_KEY, root + PRODUCT2_KEY;
    ContainsChar(k1, '1');
    ContainsChar(k2, '1');
    ContainsChar(k2, '2');
    assert k1[|root|] == '1';
    assert '1' !in k2 by {
      forall j | 0 <= j < |k2| ensures k2[j] != '1' {
        if j < |root| {
          assert k2[j] == root[j];
        }
      }
    }
    assert k2[|root|] == '2';
    assert SwapKey(k1) == k2 by {
      forall j | 0 <= j < |k1| ensures SwapKey(k1)[j] == k2[j] {
        if j < |root| {
          assert k1[j] == root[j] && k2[j] == root[j];
        }
      }
    }
    assert SwapKey(k2) == k1 by {
      forall j | 0 <= j < |k2| ensures SwapKey(k2)[j] == k1[j] {
        if j < |root| {
          assert k1[j] == root[j] && k2[j] == root[j];
        }
      }
    }
  }

  /** The input tags of image and model 1 and 2 trade places. */
  lemma SwapTags()
    ensures SwapKey(IMG1_TAG) == IMG2_TAG && SwapKey(IMG2_TAG) == IMG1_TAG
    ensures SwapKey(MODEL1_TAG) == MODEL2_TAG && SwapKey(MODEL2_TAG) == MODEL1_TAG
  {
    assert '1' !in IMG_TAG_ROOT && '2' !in IMG_TAG_ROOT;
    assert '1' !in MODEL_TAG_ROOT && '2' !in MODEL_TAG_ROOT;
    SwapRootedKey(IMG_TAG_ROOT);
    SwapRootedKey(MODEL_TAG_ROOT);
  }

  /** The reversed configuration as the loop leaves it: each entry, in order, set under its new key. */
  function SwapKeys(conf: Dict): (r: Dict)
    ensures forall i :: 0 <= i < |conf| ==> SwapKey(conf[i].0) in Keys(r)
  {
    if |conf| == 0 then []
    else Set(SwapKeys(conf[..|conf| - 1]), SwapKey(conf[|conf| - 1].0), conf[|conf| - 1].1)
  }

  /** The loop of `triangulate` that builds `reversed_input_configuration`. */
  method ReverseConfiguration(conf: Dict) returns (reversed: Dict)
    ensures reversed == SwapKeys(conf)
  {
    reversed := [];
    for i := 0 to |conf|
      invariant reversed == SwapKeys(conf[..i])
    {
      assert conf[..i + 1][..i] == conf[..i];
      reversed := Set(reversed, SwapKey(conf[i].0), conf[i].1);
    }
    assert conf[..|conf|] == conf;
  }

  lemma SplitLast<T>(s: seq<T>)
    requires |s| > 0
    ensures s == s[..|s| - 1] + [s[|s| - 1]]
  {
  }

  /**
   * When no key names both products, the reversed configuration holds under each key that
   * names at most one product exactly what the original holds under the swapped key: values
   * move with their keys and are never changed.
   */
  lemma {:induction false} SwapKeysGet(conf: Dict, k: string)
    requires UniqueKeys(conf)
    requires forall i :: 0 <= i < |conf| ==> OneProduct(conf[i].0)
    requires OneProduct(k)
    ensures Get(SwapKeys(conf), k) == Get(conf, SwapKey(k))
  {
    if |conf| > 0 {
      var n := |conf| - 1;
      var k0, v := conf[n].0, conf[n].1;
      var prefix := conf[..n];
      var prev := SwapKeys(prefix);
      assert SwapKeys(conf) == Set(prev, SwapKey(k0), v);
      PrefixUnique(conf, n);
      SwapKeysGet(prefix, k);
      SetGet(prev, SwapKey(k0), v, k);
      UniqueKeyNotBefore(conf, n);
      SplitLast(conf);
      assert conf[n] == (k0, v);
      var sk := SwapKey(k);
      GetConcat(prefix, [(k0, v)], sk);
      SwapKeyInvolution(k0);
      SwapKeyInvolution(k);
      if k == SwapKey(k0) {
        assert sk == k0;
      } else {
        assert sk != k0;
        assert Get([(k0, v)], sk) == None;
      }
    }
  }

  /** Every key of the reversed configuration names at most one product. */
  lemma {:induction false} SwapKeysOneProduct(conf: Dict)
    ensures forall key :: key in Keys(SwapKeys(conf)) ==> OneProduct(key)
  {
    if |conf| > 0 {
      var n := |conf| - 1;
      SwapKeysOneProduct(conf[..n]);
      SwapKeyInvolution(conf[n].0);
    }
  }

  /**
   * With no key naming both products, reversing the reversed configuration reads back the
   * original one under every such key.
   */
  lemma SwapKeysTwice(conf: Dict, k: string)
    requires UniqueKeys(conf)
    requires forall i :: 0 <= i < |conf| ==> OneProduct(conf[i].0)
    requires OneProduct(k)
    ensures Get(SwapKeys(SwapKeys(conf)), k) == Get(conf, k)
  {
    var once := SwapKeys(conf);
    SwapKeysUnique(conf);
    SwapKeysOneProduct(conf);
    KeysAt(once);
    assert forall i :: 0 <= i < |once| ==> OneProduct(once[i].0) by {
      forall i | 0 <= i < |once| ensures OneProduct(once[i].0) {
        assert once[i].0 == Keys(once)[i];
      }
    }
    SwapKeysGet(once, k);
    SwapKeyInvolution(k);
    SwapKeysGet(conf, SwapKey(k));
  }

  lemma {:induction false} SwapKeysUnique(conf: Dict)
    ensures UniqueKeys(SwapKeys(conf))
  {
    if |conf| > 0 {
      var n := |conf| - 1;
      SwapKeysUnique(conf[..n]);
      SetUnique(SwapKeys(conf[..n]), SwapKey(conf[n].0), conf[n].1);
    }
  }

  // ---------------------------------------------------------------------------------------
  // triangulate

  /** The call of `compute_points_cloud`: configuration, the two grids and the ROI attribute used. */
  datatype PointsCloudCall<G> = ComputePointsCloud(conf: Dict, grid1: G, grid2: G, roiKey: string)

  const STEREO_REF: string := "ref"
  const STEREO_SEC: string := "sec"
  const ROI: string := "roi"
  const ROI_WITH_MARGINS: string := "roi_with_margins"

  /** The second grid: the uncorrected one when snapping to image 1 (even when it is missing). */
  function SecondGrid<G>(grid2: G, uncorrectedGrid2: G, snapToImg1: bool): (g: G)
    ensures snapToImg1 ==> g == uncorrectedGrid2
    ensures !snapToImg1 ==> g == grid2
  {
    if snapToImg1 then uncorrectedGrid2 else grid2
  }

  /**
   * `triangulate`: the reference cloud from the input configuration and grids (1, 2) on the
   * "roi" attribute; with a secondary disparity map, also the secondary cloud from the
   * reversed configuration and the grids exchanged, on "roi_with_margins".
   */
  method Triangulate<G>(inputConf: Dict, grid1: G, grid2: G, uncorrectedGrid2: G, hasSecondary: bool, snapToImg1: bool)
    returns (pointClouds: seq<(string, PointsCloudCall<G>)>)
    ensures var g2 := SecondGrid(grid2, uncorrectedGrid2, snapToImg1);
            |pointClouds| == (if hasSecondary then 2 else 1)
            && pointClouds[0] == (STEREO_REF, ComputePointsCloud(inputConf, grid1, g2, ROI))
            && (hasSecondary ==>
                  pointClouds[1] == (STEREO_SEC, ComputePointsCloud(SwapKeys(inputConf), g2, grid1, ROI_WITH_MARGINS)))
  {
    var g2 := if snapToImg1 then uncorrectedGrid2 else grid2;
    pointClouds := [(STEREO_REF, ComputePointsCloud(inputConf, grid1, g2, ROI))];
    if hasSecondary {
      var reversed := ReverseConfiguration(inputConf);
      pointClouds := pointClouds + [(STEREO_SEC, ComputePointsCloud(reversed, g2, grid1, ROI_WITH_MARGINS))];
    }
  }

  // ---------------------------------------------------------------------------------------
  // compute_points_cloud

  /** `range(lo, hi)` as a list: the integers from lo up to hi excluded. */
  function Range(lo: int, hi: int): (r: seq<int>)
    decreases hi - lo
    ensures |r| == if hi > lo then hi - lo else 0
    ensures forall i :: 0 <= i < |r| ==> r[i] == lo + i
  {
    if hi <= lo then [] else [lo] + Range(lo + 1, hi)
  }

  /**
   * The coordinates of the point cloud: rows `range(roi[1], roi[3])` and columns
   * `range(roi[0], roi[2])`; an ROI shorter than four entries raises IndexError.
   */
  function CloudCoordinates(roi: seq<int>): (r: Result<(seq<int>, seq<int>)>)
    ensures r.Ok? <==> |roi| >= 4
    ensures r.Ok? ==> r.value.0 == Range(roi[1], roi[3]) && r.value.1 == Range(roi[0], roi[2])
  {
    if |roi| < 4 then Err(IndexError("list index out of range"))
    else Ok((Range(roi[1], roi[3]), Range(roi[0], roi[2])))
  }

  /** Every coordinate lies in the ROI, and a well-ordered ROI gives its exact height and width. */
  lemma CloudCoordinatesInRoi(roi: seq<int>)
    requires |roi| >= 4 && roi[0] <= roi[2] && roi[1] <= roi[3]
    ensures var (rows, cols) := CloudCoordinates(roi).value;
            |rows| == roi[3] - roi[1] && |cols| == roi[2] - roi[0]
            && (forall i :: 0 <= i < |rows| ==> roi[1] <= rows[i] < roi[3])
            && (forall i :: 0 <= i < |cols| ==> roi[0] <= cols[i] < roi[2])
  {
  }

  /**
   * The window `ref_roi` of the image mask kept for the cloud: the whole mask when the
   * disparity map carries its margins, otherwise the mask without its margins,
   * `[int(-m0), int(-m1), int(ncol - m2), int(nrow - m3)]` (int truncating toward zero); a
   * margins attribute shorter than four entries raises IndexError.
   */
  function RefRoi(roiKey: string, ncol: int, nrow: int, margins: seq<real>): (r: Result<seq<int>>)
    ensures r.Ok? <==> roiKey == ROI_WITH_MARGINS || |margins| >= 4
    ensures r.Ok? ==> |r.value| == 4
    ensures roiKey == ROI_WITH_MARGINS ==> r == Ok([0, 0, ncol, nrow])
  {
    if roiKey == ROI_WITH_MARGINS then Ok([0, 0, ncol, nrow])
    else if |margins| < 4 then Err(IndexError("list index out of range"))
    else Ok([Trunc(-margins[0]), Trunc(-margins[1]), Trunc(ncol as real - margins[2]), Trunc(nrow as real - margins[3])])
  }

  /**
   * With whole-number margins the window is exact: it starts at the negated first two margins
   * and ends the last two margins before the mask's width and height.
   */
  lemma RefRoiWholeMargins(ncol: int, nrow: int, m0: int, m1: int, m2: int, m3: int)
    ensures RefRoi(ROI, ncol, nrow, [m0 as real, m1 as real, m2 as real, m3 as real])
            == Ok([-m0, -m1, ncol - m2, nrow - m3])
  {
    TruncOfInt(-m0);
    TruncOfInt(-m1);
    TruncOfInt(ncol - m2);
    TruncOfInt(nrow - m3);
  }

  lemma TruncOfInt(n: int)
    ensures Trunc(n as real) == n
  {
  }

  // ---------------------------------------------------------------------------------------
  // triangulate_matches

  /** The frame of the matches point cloud: its coordinates, its correlation mask and its EPSG code. */
  datatype MatchesFrame = MatchesFrame(rows: seq<int>, cols: seq<int>, mask: seq<seq<int>>, epsg: int)

  /**
   * The frame `triangulate_matches` builds around the geometry loader's (n, width, 3) array:
   * rows 0 to n - 1, the single column 0, a mask of 255 everywhere and EPSG 4326. The column
   * coordinate has one entry, so any width other than 1 makes xarray raise ValueError.
   */
  function TriangulateMatchesFrame(nbMatches: nat, width: nat): (r: Result<MatchesFrame>)
    ensures r.Ok? <==> width == 1
    ensures r.Ok? ==>
              var f := r.value;
              |f.rows| == nbMatches && (forall i :: 0 <= i < nbMatches ==> f.rows[i] == i)
              && f.cols == [0] && f.epsg == 4326
              && |f.mask| == nbMatches
              && forall i :: 0 <= i < nbMatches ==> f.mask[i] == [255]
  {
    if width != 1 then Err(ValueError("conflicting sizes for dimension 'col'"))
    else Ok(MatchesFrame(Range(0, nbMatches), [0], seq(nbMatches, _ => [255]), 4326))
  }

  // ---------------------------------------------------------------------------------------
  // geoid_offset

  /** One longitude of `longitudes[longitudes < 0] += 360`. */
  function Unwrap(lon: real): (r: real)
    ensures r == lon || r == lon + 360.0
    ensures -360.0 <= lon ==> 0.0 <= r
    ensures lon < 360.0 ==> r < 360.0
  {
    if lon < 0.0 then lon + 360.0 else lon
  }

  /**
   * The unwrapped longitude names the same meridian, and longitudes in [-360, 360) land in
   * [0, 360); unwrapping a second time changes nothing there.
   */
  lemma UnwrapRange(lon: real)
    ensures Unwrap(lon) == lon || Unwrap(lon) == lon + 360.0
    ensures -360.0 <= lon < 360.0 ==> 0.0 <= Unwrap(lon) < 360.0
    ensures -360.0 <= lon ==> Unwrap(Unwrap(lon)) == Unwrap(lon)
    ensures lon >= 0.0 ==> Unwrap(lon) == lon
  {
  }

  /** The longitudes copied from the point cloud, then every negative one moved up by 360 in place. */
  method UnwrapLongitudes(x: array2<real>) returns (longitudes: array2<real>)
    ensures fresh(longitudes)
    ensures longitudes.Length0 == x.Length0 && longitudes.Length1 == x.Length1
    ensures forall i, j :: 0 <= i < x.Length0 && 0 <= j < x.Length1 ==> longitudes[i, j] == Unwrap(x[i, j])
  {
    longitudes := new real[x.Length0, x.Length1]((i, j) reads x requires 0 <= i < x.Length0 && 0 <= j < x.Length1 => x[i, j]);
    for i := 0 to x.Length0
      invariant forall a, b :: 0 <= a < x.Length0 && 0 <= b < x.Length1 ==>
                  longitudes[a, b] == if a < i then Unwrap(x[a, b]) else x[a, b]
    {
      for j := 0 to x.Length1
        invariant forall a, b :: 0 <= a < x.Length0 && 0 <= b < x.Length1 ==>
                    longitudes[a, b] == if a < i || (a == i && b < j) then Unwrap(x[a, b]) else x[a, b]
      {
        if longitudes[i, j] < 0.0 {
          longitudes[i, j] := longitudes[i, j] + 360.0;
        }
      }
    }
  }

  /** The extent of the geoid grid. */
  datatype GeoidExtent = GeoidExtent(latMin: real, latMax: real, lonMin: real, lonMax: real)

  /**
   * The coverage test of `geoid_offset` as written: `not` binds the latitude chain only, so the
   * error is raised when the latitudes are not covered AND the longitudes are, and the
   * longitude chain ends at the geoid's maximum latitude.
   */
  predicate CoverageErrorAsWritten(g: GeoidExtent, latLo: real, latHi: real, lonLo: real, lonHi: real)
    ensures CoverageErrorAsWritten(g, latLo, latHi, lonLo, lonHi) ==> CoverageError(g, latLo, latHi, lonLo, lonHi)
  {
    !(g.latMin <= latLo <= latHi <= g.latMax) && (g.lonMin <= lonLo <= lonHi <= g.latMax)
  }

  /** Uncovered longitudes never raise as written: with the latitudes covered, nothing is raised. */
  lemma CoverageAsWrittenIgnoresLongitudes(g: GeoidExtent, latLo: real, latHi: real, lonLo: real, lonHi: real)
    requires g.latMin <= latLo <= latHi <= g.latMax
    ensures !CoverageErrorAsWritten(g, latLo, latHi, lonLo, lonHi)
  {
  }

  /** The test the error message describes: the geoid fails to cover the cloud on either axis. */
  predicate CoverageError(g: GeoidExtent, latLo: real, latHi: real, lonLo: real, lonHi: real) {
    !(g.latMin <= latLo <= latHi <= g.latMax && g.lonMin <= lonLo <= lonHi <= g.lonMax)
  }

  /** lo <= x <= hi */
  predicate Within(x: real, lo: real, hi: real) {
    lo <= x <= hi
  }

  /** The intended test raises exactly when some cloud coordinate lies outside the geoid. */
  lemma CoverageErrorMeaning(g: GeoidExtent, latLo: real, latHi: real, lonLo: real, lonHi: real)
    requires latLo <= latHi && lonLo <= lonHi
    ensures !CoverageError(g, latLo, latHi, lonLo, lonHi)
            <==> (forall lat :: Within(lat, latLo, latHi) ==> Within(lat, g.latMin, g.latMax))
                 && (forall lon :: Within(lon, lonLo, lonHi) ==> Within(lon, g.lonMin, g.lonMax))
  {
    if CoverageError(g, latLo, latHi, lonLo, lonHi) {
      if !(g.latMin <= latLo <= latHi <= g.latMax) {
        if g.latMin > latLo {
          assert Within(latLo, latLo, latHi) && !Within(latLo, g.latMin, g.latMax);
        } else {
          assert Within(latHi, latLo, latHi) && !Within(latHi, g.latMin, g.latMax);
        }
      } else if g.lonMin > lonLo {
        assert Within(lonLo, lonLo, lonHi) && !Within(lonLo, g.lonMin, g.lonMax);
      } else {
        assert Within(lonHi, lonLo, lonHi) && !Within(lonHi, g.lonMin, g.lonMax);
      }
    }
  }

  /**
   * A cloud of whole-globe geoid latitudes whose longitudes (400) lie beyond the geoid's 360:
   * the written test lets it through, the intended one raises.
   */
  lemma CoverageCounterexample()
    ensures var g := GeoidExtent(-90.0, 90.0, 0.0, 360.0);
            !CoverageErrorAsWritten(g, 0.0, 0.0, 400.0, 400.0) && CoverageError(g, 0.0, 0.0, 400.0, 400.0)
  {
  }

  /**
   * The check `geoid_offset` makes before interpolating, on the cloud's latitude extent and its
   * unwrapped longitude extent, with the intended coverage test.
   */
  function CheckGeoidCoverage(g: GeoidExtent, latLo: real, latHi: real, lonLo: real, lonHi: real): (r: Result<()>)
    ensures r.Ok? <==> !CoverageError(g, latLo, latHi, lonLo, lonHi)
    ensures r.Ok? ==> g.latMin <= latLo && latHi <= g.latMax && g.lonMin <= lonLo && lonHi <= g.lonMax
    ensures r.Err? ==> r.error == Raised("Geoid does not fully cover the area spanned by the point cloud.")
  {
    if CoverageError(g, latLo, latHi, lonLo, lonHi)
    then Err(Raised("Geoid does not fully cover the area spanned by the point cloud."))
    else Ok(())
  }
}
