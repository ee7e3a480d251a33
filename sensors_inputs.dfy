/**
 * The input checks of the full-resolution sensor-to-DSM pipeline,
 * cars/pipelines/sensor_to_full_resolution_dsm/sensors_inputs.py: the defaults of the input
 * configuration, the per-sensor normalisation with its mask-classes rule, the pairing check,
 * `check_roi` and `generate_inputs`, which lists the sensor pairs to process.
 */
module SensorsInputs {
  import opened Wrappers
  import opened PyValue

  // Keys of the input configuration (sensor_full_res_dsm_constants.py).
  const SENSORS: string := "sensors"
  const PAIRING: string := "pairing"
  const EPSG: string := "epsg"
  const INITIAL_ELEVATION: string := "initial_elevation"
  const CHECK_INPUTS: string := "check_inputs"
  const DEFAULT_ALT: string := "default_alt"
  const ROI: string := "roi"
  const GEOID: string := "geoid"

  // Keys of one sensor.
  const INPUT_IMG: string := "image"
  const INPUT_MSK: string := "mask"
  const INPUT_MSK_CLASSES: string := "mask_classes"
  const INPUT_MODEL_FILTER: string := "geomodel_filters"
  const INPUT_NODATA: string := "no_data"
  const INPUT_COLOR: string := "color"

  // Keys of the mask classes.
  const IGNORED_BY_DENSE_MATCHING: string := "ignored_by_dense_matching"
  const SET_TO_REF_ALT: string := "set_to_ref_alt"
  const IGNORED_BY_SPARSE_MATCHING: string := "ignored_by_sparse_matching"

  const MASK_CLASSES_ERROR: string := "Mask classes were given with no mask associated"
  const NOT_IN_SENSORS: string := " not in sensors images"
  const ROI_FORMAT_ERROR: string := "Roid bounding box doesn't have the right format"

  // ---------------------------------------------------------------------------------------
  // Input defaults

  /** The optional inputs and their defaults, in the order they are set. */
  const INPUT_DEFAULTS: Dict := [
    (EPSG, NoneObj),
    (INITIAL_ELEVATION, NoneObj),
    (DEFAULT_ALT, IntObj(0)),
    (ROI, NoneObj),
    (CHECK_INPUTS, BoolObj(false))
  ]

  lemma InputDefaultsUnique()
    ensures UniqueKeys(INPUT_DEFAULTS)
    ensures GEOID !in Keys(INPUT_DEFAULTS)
  {
    assert DistinctKeys(INPUT_DEFAULTS);
    DistinctKeysUnique(INPUT_DEFAULTS);
    KeysAt(INPUT_DEFAULTS);
  }

  /**
   * The defaulting at the head of `sensors_check_inputs`: a copy of conf with the optional
   * inputs filled in, then the geoid set to conf's own when conf names one and to the geoid
   * file shipped with the package otherwise (`internalGeoid`, the path the package directory
   * gives it).
   */
  function InputDefaults(conf: Dict, internalGeoid: string): (r: Dict)
    ensures Keys(conf) <= Keys(r)
    ensures forall k :: k in Keys(INPUT_DEFAULTS) ==> k in Keys(r)
    ensures GEOID in Keys(r)
  {
    var overloaded := Overload(Some(conf), INPUT_DEFAULTS);
    var geoid := if GEOID !in Keys(overloaded) then StrObj(internalGeoid) else GetOr(conf, GEOID, NoneObj);
    SetKeys(overloaded, GEOID, geoid);
    Set(overloaded, GEOID, geoid)
  }

  /**
   * An optional input conf leaves out gets its default: no EPSG code, no initial elevation,
   * a default altitude of 0, no ROI, no input checking.
   */
  lemma InputDefaultsDefault(conf: Dict, internalGeoid: string, i: int)
    requires 0 <= i < |INPUT_DEFAULTS|
    requires INPUT_DEFAULTS[i].0 !in Keys(conf)
    ensures Get(InputDefaults(conf, internalGeoid), INPUT_DEFAULTS[i].0) == Some(INPUT_DEFAULTS[i].1)
  {
    InputDefaultsUnique();
    KeysAt(INPUT_DEFAULTS);
    var overloaded := Overload(Some(conf), INPUT_DEFAULTS);
    OverloadDefaultAt(Some(conf), INPUT_DEFAULTS, i);
    var v := if GEOID !in Keys(overloaded) then StrObj(internalGeoid) else GetOr(conf, GEOID, NoneObj);
    SetGet(overloaded, GEOID, v, INPUT_DEFAULTS[i].0);
  }

  /** Every input conf gives, the geoid included, keeps its value. */
  lemma InputDefaultsKeepsGiven(conf: Dict, internalGeoid: string, k: string)
    requires k in Keys(conf)
    ensures Get(InputDefaults(conf, internalGeoid), k) == Get(conf, k)
  {
    InputDefaultsUnique();
    var overloaded := Overload(Some(conf), INPUT_DEFAULTS);
    OverloadKeepsGiven(conf, INPUT_DEFAULTS, k);
    OverloadFromKeys(conf, conf, INPUT_DEFAULTS, GEOID);
    var v := if GEOID !in Keys(overloaded) then StrObj(internalGeoid) else GetOr(conf, GEOID, NoneObj);
    SetGet(overloaded, GEOID, v, k);
  }

  /** Without a geoid in conf, the package's own geoid file is used. */
  lemma InputDefaultsGeoid(conf: Dict, internalGeoid: string)
    requires GEOID !in Keys(conf)
    ensures Get(InputDefaults(conf, internalGeoid), GEOID) == Some(StrObj(internalGeoid))
  {
    InputDefaultsUnique();
    var overloaded := Overload(Some(conf), INPUT_DEFAULTS);
    OverloadFromKeys(conf, conf, INPUT_DEFAULTS, GEOID);
    SetGet(overloaded, GEOID, StrObj(internalGeoid), GEOID);
  }

  // ---------------------------------------------------------------------------------------
  // Mask classes

  /** The three mask classes, each absent class standing for None. */
  const MASK_CLASSES_DEFAULTS: Dict := [
    (IGNORED_BY_DENSE_MATCHING, NoneObj),
    (SET_TO_REF_ALT, NoneObj),
    (IGNORED_BY_SPARSE_MATCHING, NoneObj)
  ]

  /** Every value of the dict is None. */
  predicate FilledWithNone(d: Dict) {
    forall i :: 0 <= i < |d| ==> d[i].1 == NoneObj
  }

  /** The loop over the mask classes that stops at the first value that is not None. */
  method CheckFilledWithNone(d: Dict) returns (filled: bool)
    ensures filled <==> FilledWithNone(d)
  {
    filled := true;
    var i := 0;
    while i < |d|
      invariant 0 <= i <= |d|
      invariant filled ==> forall j :: 0 <= j < i ==> d[j].1 == NoneObj
      invariant !filled ==> !FilledWithNone(d)
    {
      if d[i].1 != NoneObj {
        filled := false;
        break;
      }
      i := i + 1;
    }
  }

  /** The mask classes after normalisation: a copy with the three classes set, None by default. */
  function UpdatedMaskClasses(maskClasses: Dict): (r: Dict)
    ensures Keys(maskClasses) <= Keys(r)
    ensures forall k :: k in Keys(MASK_CLASSES_DEFAULTS) ==> k in Keys(r)
  {
    Overload(Some(maskClasses), MASK_CLASSES_DEFAULTS)
  }

  lemma MaskClassesDefaultsUnique()
    ensures UniqueKeys(MASK_CLASSES_DEFAULTS)
    ensures FilledWithNone(MASK_CLASSES_DEFAULTS)
  {
    assert DistinctKeys(MASK_CLASSES_DEFAULTS);
    DistinctKeysUnique(MASK_CLASSES_DEFAULTS);
  }

  /** Reading a key of a dict of Nones gives None, if anything. */
  lemma {:induction false} GetFilledWithNone(d: Dict, k: string)
    requires FilledWithNone(d)
    ensures Get(d, k).Some? ==> Get(d, k).value == NoneObj
  {
    if |d| > 0 && d[0].0 != k {
      GetFilledWithNone(d[1..], k);
    }
  }

  lemma {:induction false} SetFilledWithNone(d: Dict, k: string)
    requires FilledWithNone(d)
    ensures FilledWithNone(Set(d, k, NoneObj))
  {
    if |d| > 0 && d[0].0 != k {
      SetFilledWithNone(d[1..], k);
      var r := Set(d, k, NoneObj);
      assert r[0] == d[0] && r[1..] == Set(d[1..], k, NoneObj);
    }
  }

  lemma {:induction false} OverloadFromFilledWithNone(acc: Dict, original: Dict, defaults: Dict)
    requires FilledWithNone(acc) && FilledWithNone(original) && FilledWithNone(defaults)
    ensures FilledWithNone(OverloadFrom(acc, original, defaults))
    decreases |defaults|
  {
    if |defaults| > 0 {
      var k := defaults[0].0;
      GetFilledWithNone(original, k);
      SetFilledWithNone(acc, k);
      OverloadFromFilledWithNone(Set(acc, k, NoneObj), original, defaults[1..]);
    }
  }

  /**
   * The normalised mask classes hold all three classes; a class given keeps its value, a
   * class left out is None, and any other entry is kept.
   */
  lemma UpdatedMaskClassesGet(maskClasses: Dict, k: string)
    ensures k in Keys(MASK_CLASSES_DEFAULTS) ==> Get(UpdatedMaskClasses(maskClasses), k) == Some(GetOr(maskClasses, k, NoneObj))
    ensures k !in Keys(MASK_CLASSES_DEFAULTS) ==> Get(UpdatedMaskClasses(maskClasses), k) == Get(maskClasses, k)
  {
    MaskClassesDefaultsUnique();
    OverloadGet(Some(maskClasses), MASK_CLASSES_DEFAULTS, k);
    GetFilledWithNone(MASK_CLASSES_DEFAULTS, k);
  }

  /** Normalising mask classes that are all None gives mask classes that are all None. */
  lemma UpdatedMaskClassesFilledWithNone(maskClasses: Dict)
    requires FilledWithNone(maskClasses)
    ensures FilledWithNone(UpdatedMaskClasses(maskClasses))
  {
    MaskClassesDefaultsUnique();
    OverloadFromFilledWithNone(maskClasses, maskClasses, MASK_CLASSES_DEFAULTS);
  }

  // ---------------------------------------------------------------------------------------
  // One sensor

  /** The optional sensor entries and their defaults; the colour image defaults to the image. */
  function SensorDefaults(image: Obj): Dict {
    [(INPUT_COLOR, image), (INPUT_MODEL_FILTER, NoneObj), (INPUT_NODATA, IntObj(-9999)), (INPUT_MSK, NoneObj)]
  }

  lemma SensorDefaultsUnique(image: Obj)
    ensures UniqueKeys(SensorDefaults(image))
    ensures INPUT_MSK_CLASSES !in Keys(SensorDefaults(image))
  {
    assert DistinctKeys(SensorDefaults(image));
    DistinctKeysUnique(SensorDefaults(image));
    KeysAt(SensorDefaults(image));
  }

  /** A normalised sensor names its colour, geomodel filters, no-data value, mask and mask classes. */
  predicate HasOptionalInputs(sensor: Dict) {
    INPUT_COLOR in Keys(sensor) && INPUT_MODEL_FILTER in Keys(sensor) && INPUT_NODATA in Keys(sensor)
    && INPUT_MSK in Keys(sensor) && INPUT_MSK_CLASSES in Keys(sensor)
  }

  /**
   * The body of the per-sensor loop of `sensors_check_inputs`. A sensor that is not a dict
   * fails (`.get` on it); the image is read even when a colour is given, so a sensor without
   * an image raises KeyError; mask classes that are not a dict fail (`.items()` on them); mask
   * classes with a value other than None on a sensor without a mask raise; otherwise the
   * sensor with its defaults filled in and its mask classes normalised.
   */
  function NormaliseSensor(sensor: Obj): (r: Result<Dict>)
    ensures r.Ok? ==> sensor.DictObj? && INPUT_IMG in Keys(sensor.entries)
    ensures r.Ok? ==> Keys(sensor.entries) <= Keys(r.value)
    ensures r.Ok? ==> HasOptionalInputs(r.value)
  {
    if !sensor.DictObj? then Err(TypeError("sensor is not a dict"))
    else
      var s := sensor.entries;
      if INPUT_IMG !in Keys(s) then Err(KeyError(INPUT_IMG))
      else
        var mask := GetOr(s, INPUT_MSK, NoneObj);
        var maskClasses := GetOr(s, INPUT_MSK_CLASSES, DictObj([]));
        if !maskClasses.DictObj? then Err(TypeError("mask_classes is not a dict"))
        else if !FilledWithNone(maskClasses.entries) && mask == NoneObj then Err(Raised(MASK_CLASSES_ERROR))
        else
          var defaults := SensorDefaults(Get(s, INPUT_IMG).value);
          var filled := Overload(Some(s), defaults);
          KeysAt(defaults);
          assert INPUT_COLOR == Keys(defaults)[0] && INPUT_MODEL_FILTER == Keys(defaults)[1];
          assert INPUT_NODATA == Keys(defaults)[2] && INPUT_MSK == Keys(defaults)[3];
          var classes := DictObj(UpdatedMaskClasses(maskClasses.entries));
          SetKeys(filled, INPUT_MSK_CLASSES, classes);
          Ok(Set(filled, INPUT_MSK_CLASSES, classes))
  }

  /** The same per-sensor step, with the loop over the mask classes as the source writes it. */
  method CheckSensor(sensor: Obj) returns (r: Result<Dict>)
    ensures r == NormaliseSensor(sensor)
  {
    if !sensor.DictObj? {
      return Err(TypeError("sensor is not a dict"));
    }
    var s := sensor.entries;
    if INPUT_IMG !in Keys(s) {
      return Err(KeyError(INPUT_IMG));
    }
    var mask := GetOr(s, INPUT_MSK, NoneObj);
    var maskClasses := GetOr(s, INPUT_MSK_CLASSES, DictObj([]));
    if !maskClasses.DictObj? {
      return Err(TypeError("mask_classes is not a dict"));
    }
    var filled := CheckFilledWithNone(maskClasses.entries);
    if !filled && mask == NoneObj {
      return Err(Raised(MASK_CLASSES_ERROR));
    }
    var overloaded := Overload(Some(s), SensorDefaults(Get(s, INPUT_IMG).value));
    r := Ok(Set(overloaded, INPUT_MSK_CLASSES, DictObj(UpdatedMaskClasses(maskClasses.entries))));
  }

  /**
   * A sensor that is a dict with an image and dict mask classes is refused exactly when one
   * of its mask classes is not None while it has no mask.
   */
  lemma NormaliseSensorRaises(s: Dict)
    requires INPUT_IMG in Keys(s) && GetOr(s, INPUT_MSK_CLASSES, DictObj([])).DictObj?
    ensures var classes := GetOr(s, INPUT_MSK_CLASSES, DictObj([])).entries;
            NormaliseSensor(DictObj(s)).Err?
            <==> (exists i :: 0 <= i < |classes| && classes[i].1 != NoneObj) && GetOr(s, INPUT_MSK, NoneObj) == NoneObj
  {
  }

  /** Reading the normalised form of a sensor back, before the defaults are specialised. */
  lemma SensorFilledGet(s: Dict, image: Obj, classes: Obj, k: string)
    ensures Get(Set(Overload(Some(s), SensorDefaults(image)), INPUT_MSK_CLASSES, classes), k)
            == if k == INPUT_MSK_CLASSES then Some(classes)
               else if k in Keys(SensorDefaults(image)) then Some(GetOr(s, k, GetOr(SensorDefaults(image), k, NoneObj)))
               else Get(s, k)
  {
    SensorDefaultsUnique(image);
    SetGet(Overload(Some(s), SensorDefaults(image)), INPUT_MSK_CLASSES, classes, k);
    OverloadGet(Some(s), SensorDefaults(image), k);
  }

  /**
   * A normalised sensor has its colour (the image by default), its model filters (None by
   * default), its no-data value (-9999 by default), its mask (None by default) and its
   * normalised mask classes.
   */
  lemma NormaliseSensorDefaults(sensor: Obj)
    requires NormaliseSensor(sensor).Ok?
    ensures var s := sensor.entries;
            var r := NormaliseSensor(sensor).value;
            && Get(r, INPUT_COLOR) == Some(GetOr(s, INPUT_COLOR, Get(s, INPUT_IMG).value))
            && Get(r, INPUT_MODEL_FILTER) == Some(GetOr(s, INPUT_MODEL_FILTER, NoneObj))
            && Get(r, INPUT_NODATA) == Some(GetOr(s, INPUT_NODATA, IntObj(-9999)))
            && Get(r, INPUT_MSK) == Some(GetOr(s, INPUT_MSK, NoneObj))
            && Get(r, INPUT_MSK_CLASSES) == Some(DictObj(UpdatedMaskClasses(GetOr(s, INPUT_MSK_CLASSES, DictObj([])).entries)))
  {
    var s := sensor.entries;
    var image := Get(s, INPUT_IMG).value;
    var classes := DictObj(UpdatedMaskClasses(GetOr(s, INPUT_MSK_CLASSES, DictObj([])).entries));
    KeysAt(SensorDefaults(image));
    SensorDefaultsUnique(image);
    GetAt(SensorDefaults(image), 0);
    GetAt(SensorDefaults(image), 1);
    GetAt(SensorDefaults(image), 2);
    GetAt(SensorDefaults(image), 3);
    SensorFilledGet(s, image, classes, INPUT_COLOR);
    SensorFilledGet(s, image, classes, INPUT_MODEL_FILTER);
    SensorFilledGet(s, image, classes, INPUT_NODATA);
    SensorFilledGet(s, image, classes, INPUT_MSK);
    SensorFilledGet(s, image, classes, INPUT_MSK_CLASSES);
  }

  /** Every other entry of a sensor is kept as it was. */
  lemma NormaliseSensorKeepsOthers(sensor: Obj, k: string)
    requires NormaliseSensor(sensor).Ok?
    requires k !in [INPUT_COLOR, INPUT_MODEL_FILTER, INPUT_NODATA, INPUT_MSK, INPUT_MSK_CLASSES]
    ensures Get(NormaliseSensor(sensor).value, k) == Get(sensor.entries, k)
  {
    var s := sensor.entries;
    var image := Get(s, INPUT_IMG).value;
    var classes := DictObj(UpdatedMaskClasses(GetOr(s, INPUT_MSK_CLASSES, DictObj([])).entries));
    assert NormaliseSensor(sensor).value == Set(Overload(Some(s), SensorDefaults(image)), INPUT_MSK_CLASSES, classes);
    assert k != INPUT_MSK_CLASSES && k !in Keys(SensorDefaults(image)) by {
      KeysAt(SensorDefaults(image));
      assert Keys(SensorDefaults(image)) == [INPUT_COLOR, INPUT_MODEL_FILTER, INPUT_NODATA, INPUT_MSK];
    }
    SensorFilledGet(s, image, classes, k);
  }

  /** The point of the mask-classes check: a normalised sensor without a mask has only None classes. */
  lemma NormaliseSensorNoMaskNoClasses(sensor: Obj)
    requires NormaliseSensor(sensor).Ok?
    requires Get(NormaliseSensor(sensor).value, INPUT_MSK) == Some(NoneObj)
    ensures var classes := Get(NormaliseSensor(sensor).value, INPUT_MSK_CLASSES);
            classes.Some? && classes.value.DictObj? && FilledWithNone(classes.value.entries)
  {
    NormaliseSensorDefaults(sensor);
    UpdatedMaskClassesFilledWithNone(GetOr(sensor.entries, INPUT_MSK_CLASSES, DictObj([])).entries);
  }

  // ---------------------------------------------------------------------------------------
  // All the sensors

  /** The sensor normalises without error. */
  predicate SensorOk(sensor: Obj) {
    NormaliseSensor(sensor).Ok?
  }

  /** Sensor j is the first one whose normalisation fails. */
  predicate FirstFailure(sensors: Dict, j: int) {
    && 0 <= j < |sensors|
    && !SensorOk(sensors[j].1)
    && forall i :: 0 <= i < j ==> SensorOk(sensors[i].1)
  }

  /** Writing the normalised sensor i after the sensors before it extends the normalised prefix. */
  lemma NormalisedStep(sensors: Dict, normalised: Dict, i: int)
    requires 0 <= i < |sensors| == |normalised| && SensorOk(sensors[i].1)
    requires forall j :: 0 <= j < i ==>
               SensorOk(sensors[j].1) && normalised[j] == (sensors[j].0, DictObj(NormaliseSensor(sensors[j].1).value))
    ensures var next := normalised[i := (sensors[i].0, DictObj(NormaliseSensor(sensors[i].1).value))];
            forall j :: 0 <= j < i + 1 ==>
              SensorOk(sensors[j].1) && next[j] == (sensors[j].0, DictObj(NormaliseSensor(sensors[j].1).value))
  {
  }

  /**
   * The per-sensor loop: each sensor, in order, replaced by its normalised form; the first
   * sensor that fails stops the loop with its error.
   */
  method NormaliseSensors(sensors: Dict) returns (r: Result<Dict>)
    ensures r.Ok? <==> forall i :: 0 <= i < |sensors| ==> SensorOk(sensors[i].1)
    ensures r.Ok? ==> |r.value| == |sensors|
    ensures r.Ok? ==> forall i :: 0 <= i < |sensors| ==>
              r.value[i] == (sensors[i].0, DictObj(NormaliseSensor(sensors[i].1).value))
    ensures r.Err? ==> exists j :: FirstFailure(sensors, j) && NormaliseSensor(sensors[j].1).error == r.error
  {
    var normalised := sensors;
    var i := 0;
    while i < |sensors|
      invariant 0 <= i <= |sensors| && |normalised| == |sensors|
      invariant forall j :: 0 <= j < i ==> SensorOk(sensors[j].1)
      invariant forall j :: 0 <= j < i ==> normalised[j] == (sensors[j].0, DictObj(NormaliseSensor(sensors[j].1).value))
    {
      var sensor := CheckSensor(sensors[i].1);
      if sensor.Err? {
        assert FirstFailure(sensors, i);
        return Err(sensor.error);
      }
      NormalisedStep(sensors, normalised, i);
      normalised := normalised[i := (sensors[i].0, DictObj(sensor.value))];
      i := i + 1;
    }
    r := Ok(normalised);
  }

  /** Normalising the sensors keeps their keys, in order. */
  lemma NormalisedSensorKeys(sensors: Dict, normalised: Dict)
    requires |normalised| == |sensors|
    requires forall i :: 0 <= i < |sensors| ==> normalised[i].0 == sensors[i].0
    ensures Keys(normalised) == Keys(sensors)
  {
    KeysAt(sensors);
    KeysAt(normalised);
  }

  // ---------------------------------------------------------------------------------------
  // Pairing

  /** A pairing entry unpacks into two keys, both sensor keys. */
  predicate PairKnown(pair: seq<string>, sensorKeys: seq<string>) {
    |pair| == 2 && pair[0] in sensorKeys && pair[1] in sensorKeys
  }

  /** Pairing entry j is the first one that is not a known pair. */
  predicate FirstUnknownPair(pairing: seq<seq<string>>, sensorKeys: seq<string>, j: int) {
    && 0 <= j < |pairing|
    && !PairKnown(pairing[j], sensorKeys)
    && forall i :: 0 <= i < j ==> PairKnown(pairing[i], sensorKeys)
  }

  /**
   * What the pairing check raises for a bad entry: the unpacking of an entry that is not two
   * keys fails, then the first key is looked up before the second.
   */
  function PairingError(pair: seq<string>, sensorKeys: seq<string>): (e: Error)
    requires !PairKnown(pair, sensorKeys)
    ensures |pair| == 2 ==> e.Raised? && (e.msg == pair[0] + NOT_IN_SENSORS || e.msg == pair[1] + NOT_IN_SENSORS)
    ensures |pair| == 2 && pair[0] !in sensorKeys ==> e == Raised(pair[0] + NOT_IN_SENSORS)
  {
    if |pair| != 2 then ValueError("cannot unpack a pairing entry into two keys")
    else if pair[0] !in sensorKeys then Raised(pair[0] + NOT_IN_SENSORS)
    else Raised(pair[1] + NOT_IN_SENSORS)
  }

  /** The pairing check: every entry must name two sensors, the first bad entry raises. */
  method ValidatePairing(pairing: seq<seq<string>>, sensorKeys: seq<string>) returns (r: Result<()>)
    ensures r.Ok? <==> forall i :: 0 <= i < |pairing| ==> PairKnown(pairing[i], sensorKeys)
    ensures r.Err? ==> exists j :: FirstUnknownPair(pairing, sensorKeys, j) && r.error == PairingError(pairing[j], sensorKeys)
  {
    var i := 0;
    while i < |pairing|
      invariant 0 <= i <= |pairing|
      invariant forall j :: 0 <= j < i ==> PairKnown(pairing[j], sensorKeys)
    {
      var pair := pairing[i];
      if |pair| != 2 {
        assert FirstUnknownPair(pairing, sensorKeys, i);
        return Err(ValueError("cannot unpack a pairing entry into two keys"));
      }
      if pair[0] !in sensorKeys {
        assert FirstUnknownPair(pairing, sensorKeys, i);
        return Err(Raised(pair[0] + NOT_IN_SENSORS));
      }
      if pair[1] !in sensorKeys {
        assert FirstUnknownPair(pairing, sensorKeys, i);
        return Err(Raised(pair[1] + NOT_IN_SENSORS));
      }
      i := i + 1;
    }
    r := Ok(());
  }

  // ---------------------------------------------------------------------------------------
  // check_roi

  /** What iterating over a value yields, for the values that can be unpacked. */
  function Elements(o: Obj): (r: Option<seq<Obj>>)
    ensures o.ListObj? || o.TupleObj? ==> r.Some? && |r.value| == |if o.ListObj? then o.items else o.elems|
  {
    match o
    case ListObj(items) => Some(items)
    case TupleObj(elems) => Some(elems)
    case StrObj(s) => Some(seq(|s|, i requires 0 <= i < |s| => StrObj([s[i]])))
    case DictObj(entries) => Some(seq(|entries|, i requires 0 <= i < |entries| => StrObj(entries[i].0)))
    case _ => None
  }

  /** Python's `len`, for the values that have one. */
  function Len(o: Obj): Option<nat> {
    match o
    case ListObj(items) => Some(|items|)
    case TupleObj(elems) => Some(|elems|)
    case StrObj(s) => Some(|s|)
    case DictObj(entries) => Some(|entries|)
    case _ => None
  }

  /**
   * `check_roi`: no ROI is accepted; otherwise the ROI unpacks into a bounding box and an EPSG
   * code, and the bounding box must have four entries. The EPSG code is only logged about.
   */
  function CheckRoi(roi: Obj): (r: Result<()>)
    ensures r.Ok? <==> roi == NoneObj || (Elements(roi).Some? && |Elements(roi).value| == 2 && Len(Elements(roi).value[0]) == Some(4))
  {
    if roi == NoneObj then Ok(())
    else match Elements(roi)
      case None => Err(TypeError("cannot unpack non-iterable object"))
      case Some(parts) =>
        if |parts| != 2 then Err(ValueError("cannot unpack the ROI into a box and an EPSG code"))
        else match Len(parts[0])
          case None => Err(TypeError("object has no len()"))
          case Some(n) => if n != 4 then Err(Raised(ROI_FORMAT_ERROR)) else Ok(())
  }

  /**
   * A ROI given as a box and an EPSG code, as a list or a tuple, is accepted exactly when the
   * box has four entries; a box of another length raises the format error.
   */
  lemma CheckRoiBoxAndEpsg(box: seq<Obj>, epsg: Obj, asTuple: bool)
    ensures var roi := if asTuple then TupleObj([ListObj(box), epsg]) else ListObj([ListObj(box), epsg]);
            && (CheckRoi(roi).Ok? <==> |box| == 4)
            && (|box| != 4 ==> CheckRoi(roi) == Err(Raised(ROI_FORMAT_ERROR)))
  {
  }

  // ---------------------------------------------------------------------------------------
  // generate_inputs

  /** The key of a pair of sensors. */
  function MergedKey(key1: string, key2: string): (k: string)
    ensures |k| == |key1| + 1 + |key2| && k[|key1|] == '_'
    ensures k[..|key1|] == key1 && k[|key1| + 1..] == key2
  {
    key1 + "_" + key2
  }

  /** Two pairs whose first keys have no underscore get different merged keys. */
  lemma MergedKeyInjective(a1: string, a2: string, b1: string, b2: string)
    requires '_' !in a1 && '_' !in b1
    ensures MergedKey(a1, a2) == MergedKey(b1, b2) ==> a1 == b1 && a2 == b2
  {
    var m := MergedKey(a1, a2);
    if m == MergedKey(b1, b2) {
      assert |a1| == |b1|;
      assert a1 == m[..|a1|] == b1;
    }
  }

  /** Without that condition two different pairs can share a merged key. */
  lemma MergedKeyAmbiguous()
    ensures MergedKey("a_b", "c") == MergedKey("a", "b_c")
  {
  }

  /** One (merged key, first sensor, second sensor) triple. */
  datatype SensorPair = SensorPair(key: string, sensor1: Obj, sensor2: Obj)

  /** What `generate_inputs` raises for the first bad pairing entry. */
  function GenerateError(pair: seq<string>, sensors: Dict): Error
    requires !PairKnown(pair, Keys(sensors))
  {
    if |pair| != 2 then ValueError("cannot unpack a pairing entry into two keys")
    else if pair[0] !in Keys(sensors) then KeyError(pair[0])
    else KeyError(pair[1])
  }

  /**
   * `generate_inputs`: one triple per pairing entry, in pairing order, holding the merged
   * key and the two sensors; a key that is not a sensor raises KeyError.
   */
  method GenerateInputs(pairing: seq<seq<string>>, sensors: Dict) returns (r: Result<seq<SensorPair>>)
    ensures r.Ok? <==> forall i :: 0 <= i < |pairing| ==> PairKnown(pairing[i], Keys(sensors))
    ensures r.Ok? ==> |r.value| == |pairing|
    ensures r.Ok? ==> forall i :: 0 <= i < |pairing| ==>
              r.value[i] == SensorPair(MergedKey(pairing[i][0], pairing[i][1]),
                                       Get(sensors, pairing[i][0]).value, Get(sensors, pairing[i][1]).value)
    ensures r.Err? ==> exists j :: FirstUnknownPair(pairing, Keys(sensors), j) && r.error == GenerateError(pairing[j], sensors)
  {
    var pairs: seq<SensorPair> := [];
    var i := 0;
    while i < |pairing|
      invariant 0 <= i <= |pairing| && |pairs| == i
      invariant forall j :: 0 <= j < i ==> PairKnown(pairing[j], Keys(sensors))
      invariant forall j :: 0 <= j < i ==>
                  pairs[j] == SensorPair(MergedKey(pairing[j][0], pairing[j][1]),
                                         Get(sensors, pairing[j][0]).value, Get(sensors, pairing[j][1]).value)
    {
      var pair := pairing[i];
      if |pair| != 2 {
        assert FirstUnknownPair(pairing, Keys(sensors), i);
        return Err(ValueError("cannot unpack a pairing entry into two keys"));
      }
      var sensor1 := Get(sensors, pair[0]);
      if sensor1.None? {
        assert FirstUnknownPair(pairing, Keys(sensors), i);
        return Err(KeyError(pair[0]));
      }
      var sensor2 := Get(sensors, pair[1]);
      if sensor2.None? {
        assert FirstUnknownPair(pairing, Keys(sensors), i);
        return Err(KeyError(pair[1]));
      }
      pairs := pairs + [SensorPair(MergedKey(pair[0], pair[1]), sensor1.value, sensor2.value)];
      i := i + 1;
    }
    r := Ok(pairs);
  }
}
