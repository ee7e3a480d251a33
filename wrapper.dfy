/**
 * The disk wrapper of the task orchestrator (cars/orchestrator/cluster/wrapper.py).
 *
 * A task's result tiles are dumped to a temporary directory under a handle path
 * `<tmp>/DenseDO_<id>` (array tiles) or `<tmp>/SparseDO_<id>` (point tiles); the next task
 * receives the handle strings and loads them back. The directory is an abstract map from path
 * to the stored value; ids come from a counter owned by `WrapperDisk`.
 */
module Wrapper {
  import opened Wrappers
  import opened PyStr
  import opened PyValue

  const DENSE_NAME: string := "DenseDO"
  const SPARSE_NAME: string := "SparseDO"

  /** The temporary storage: the value held at each path. */
  type Disk = map<string, Obj>

  /** An array tile (xarray.Dataset) or a point tile (pandas.DataFrame). */
  predicate IsTile(obj: Obj) {
    obj.ArraysObj? || obj.PointsObj?
  }

  // ---------------------------------------------------------------------------
  // Recognising and loading handles

  /** `is_dumped_object`: a string naming a dumped dense or sparse tile. */
  predicate IsDumpedObject(obj: Obj)
    ensures IsDumpedObject(obj) ==> obj.StrObj? && |obj.s| >= |DENSE_NAME|
  {
    obj.StrObj? && (Contains(obj.s, DENSE_NAME) || Contains(obj.s, SPARSE_NAME))
  }

  /** A handle is exactly a string in which one of the two names occurs at some position. */
  lemma IsDumpedObjectIff(obj: Obj)
    ensures IsDumpedObject(obj)
            <==> obj.StrObj? && exists i :: OccursAt(obj.s, DENSE_NAME, i) || OccursAt(obj.s, SPARSE_NAME, i)
  {
    if obj.StrObj? {
      ContainsIff(obj.s, DENSE_NAME);
      ContainsIff(obj.s, SPARSE_NAME);
    }
  }

  /** `CarsDataset("arrays" | "points").load_single_tile(path)`: the tile of that kind stored at path. */
  function LoadSingleTile(path: string, dense: bool, disk: Disk): (r: Result<Obj>)
    ensures r.Ok? ==> path in disk && r.value == disk[path]
    ensures r.Ok? ==> if dense then r.value.ArraysObj? else r.value.PointsObj?
  {
    if path in disk && (if dense then disk[path].ArraysObj? else disk[path].PointsObj?) then Ok(disk[path])
    else Err(IOError(path))
  }

  /**
   * `load`: None stays None; a path naming a dense tile is loaded as arrays (tested first), one
   * naming a sparse tile as points; any other string is returned unchanged.
   */
  function Load(path: Option<string>, disk: Disk): (r: Result<Obj>)
    ensures path.None? ==> r == Ok(NoneObj)
    ensures path.Some? && !IsDumpedObject(StrObj(path.value)) ==> r == Ok(StrObj(path.value))
    ensures path.Some? && r.Ok? ==> (IsTile(r.value) <==> IsDumpedObject(StrObj(path.value)))
    ensures path.Some? && Contains(path.value, DENSE_NAME) && r.Ok? ==> r.value.ArraysObj?
  {
    match path
    case None => Ok(NoneObj)
    case Some(p) =>
      if Contains(p, DENSE_NAME) then LoadSingleTile(p, true, disk)
      else if Contains(p, SPARSE_NAME) then LoadSingleTile(p, false, disk)
      else Ok(StrObj(p))
  }

  // ---------------------------------------------------------------------------
  // Creating handles and dumping

  /** The file name part `create_path` chooses by the kind of the object. */
  function TileName(obj: Obj): (r: Result<string>)
    ensures r.Ok? <==> IsTile(obj) || obj.StrObj?
  {
    match obj
    case ArraysObj(_) => Ok(DENSE_NAME)
    case PointsObj(_) => Ok(SPARSE_NAME)
    case StrObj(s) => Ok(s)
    case _ => Err(TypeError("can only concatenate str to str"))
  }

  /** `create_path`: `<tmp_dir>/<name>_<repr(id)>`. */
  function CreatePath(obj: Obj, tmpDir: string, id: int): (r: Result<string>)
    ensures r.Ok? <==> IsTile(obj) || obj.StrObj?
  {
    match TileName(obj)
    case Ok(name) => Ok(Join(tmpDir, name + "_" + IntToString(id)))
    case Err(e) => Err(e)
  }

  /** The file name of a tile's handle: `DenseDO_<id>` or `SparseDO_<id>`. */
  function TileFileName(obj: Obj, id: int): string
    requires IsTile(obj)
  {
    (if obj.ArraysObj? then DENSE_NAME else SPARSE_NAME) + "_" + IntToString(id)
  }

  /** The handle of a tile: its file name in the temporary directory. */
  function Handle(obj: Obj, tmpDir: string, id: int): string
    requires IsTile(obj)
  {
    JoinPrefix(tmpDir) + TileFileName(obj, id)
  }

  /** A tile's path, as `create_path` builds it, is its handle. */
  lemma CreatePathTile(obj: Obj, tmpDir: string, id: int)
    ensures IsTile(obj) ==> CreatePath(obj, tmpDir, id) == Ok(Handle(obj, tmpDir, id))
  {
    if IsTile(obj) {
      var name := TileName(obj).value;
      assert TileFileName(obj, id)[0] == name[0];
    }
  }

  /** `dump_single_object`: stores an array or point tile at path; anything else raises. */
  function DumpSingleObject(obj: Obj, path: string, disk: Disk): (r: Result<Disk>)
    ensures r.Ok? <==> IsTile(obj)
    ensures r.Ok? ==> r.value == disk[path := obj]
  {
    if IsTile(obj) then Ok(disk[path := obj])
    else Err(Raised("Not an arrays or points"))
  }

  /** The exception `dump_single_object` or `create_path` raises for an entry that is not a tile. */
  function DumpError(obj: Obj): Error {
    if obj.StrObj? then Raised("Not an arrays or points") else TypeError("can only concatenate str to str")
  }

  /** What a dump yields: the returned value (or the error raised) and the storage after it. */
  datatype Dumped<T> = Dumped(result: Result<T>, disk: Disk)

  /** One object dumped: the path it was written to. */
  function DumpOne(obj: Obj, tmpDir: string, id: int, disk: Disk): (r: Dumped<string>)
    ensures IsTile(obj) ==> r == Dumped(Ok(Handle(obj, tmpDir, id)), disk[Handle(obj, tmpDir, id) := obj])
    ensures !IsTile(obj) ==> r == Dumped(Err(DumpError(obj)), disk)
  {
    CreatePathTile(obj, tmpDir, id);
    match CreatePath(obj, tmpDir, id)
    case Err(e) => Dumped(Err(e), disk)
    case Ok(path) =>
      match DumpSingleObject(obj, path, disk)
      case Err(e) => Dumped(Err(e), disk)
      case Ok(disk') => Dumped(Ok(path), disk')
  }

  /**
   * Step i of the multi-output loop of `dump`, after the steps before it: a missing entry
   * raises, a None entry adds None, any other entry is dumped as `DumpOne` does.
   */
  function DumpStep(before: Dumped<seq<Obj>>, items: seq<Obj>, tmpDir: string, ids: seq<int>, i: nat)
    : Dumped<seq<Obj>>
    requires i < |ids|
  {
    if before.result.Err? then before
    else if i >= |items| then Dumped(Err(IndexError("index out of range")), before.disk)
    else if items[i] == NoneObj then Dumped(Ok(before.result.value + [NoneObj]), before.disk)
    else if IsTile(items[i]) then
      var path := Handle(items[i], tmpDir, ids[i]);
      Dumped(Ok(before.result.value + [StrObj(path)]), before.disk[path := items[i]])
    else Dumped(Err(DumpError(items[i])), before.disk)
  }

  /** A step on an entry that is not None is `create_path` followed by `dump_single_object`. */
  lemma DumpStepIsDumpOne(before: Dumped<seq<Obj>>, items: seq<Obj>, tmpDir: string, ids: seq<int>, i: nat)
    requires i < |ids| && i < |items| && before.result.Ok? && items[i] != NoneObj
    ensures var one := DumpOne(items[i], tmpDir, ids[i], before.disk);
            DumpStep(before, items, tmpDir, ids, i)
            == match one.result
               case Ok(path) => Dumped(Ok(before.result.value + [StrObj(path)]), one.disk)
               case Err(e) => Dumped(Err(e), one.disk)
  {
  }

  /** The first n steps of the multi-output loop of `dump`: a path, or None for a None entry. */
  function DumpPrefix(items: seq<Obj>, tmpDir: string, ids: seq<int>, n: nat, disk: Disk): Dumped<seq<Obj>>
    requires n <= |ids|
  {
    if n == 0 then Dumped(Ok([]), disk)
    else DumpStep(DumpPrefix(items, tmpDir, ids, n - 1, disk), items, tmpDir, ids, n - 1)
  }

  /** Once a step of the loop raises, the later steps change nothing: the loop has stopped. */
  lemma {:induction false} DumpPrefixStops(items: seq<Obj>, tmpDir: string, ids: seq<int>, m: nat, n: nat, disk: Disk)
    requires m <= n <= |ids|
    requires DumpPrefix(items, tmpDir, ids, m, disk).result.Err?
    ensures DumpPrefix(items, tmpDir, ids, n, disk) == DumpPrefix(items, tmpDir, ids, m, disk)
    decreases n - m
  {
    if m < n {
      DumpPrefixStops(items, tmpDir, ids, m, n - 1, disk);
    }
  }

  /** The entries `res[i]` reads: the items of a list or tuple, the one-character strings of a str. */
  function Entries(res: Obj): Option<seq<Obj>> {
    match res
    case ListObj(items) => Some(items)
    case TupleObj(elems) => Some(elems)
    case StrObj(s) => Some(seq(|s|, i requires 0 <= i < |s| => StrObj([s[i]])))
    case _ => None
  }

  /**
   * What `res[0]` raises on an object without integer positions: a dict, a Dataset or a
   * DataFrame looks 0 up as a key that is not there; anything else is not subscriptable.
   */
  function IndexingError(res: Obj): Error {
    if res.DictObj? || IsTile(res) then KeyError("0") else TypeError("object is not subscriptable")
  }

  /** `dump`: a tuple of paths for several ids, a single path for one. */
  function DumpSpec(res: Obj, tmpDir: string, ids: seq<int>, disk: Disk): (d: Dumped<Obj>)
    ensures |ids| == 0 ==> d == Dumped(Err(IndexError("list index out of range")), disk)
    ensures |ids| == 1 ==> (d.result.Ok? <==> IsTile(res))
    ensures |ids| == 1 && IsTile(res) ==>
              var h := Handle(res, tmpDir, ids[0]);
              d == Dumped(Ok(StrObj(h)), disk[h := res])
    ensures |ids| > 1 ==> (d.result.Ok? <==> Entries(res).Some? && Dumpable(Entries(res).value, |ids|))
    ensures |ids| > 1 && Entries(res).None? ==> d == Dumped(Err(IndexingError(res)), disk)
    ensures |ids| > 1 && d.result.Ok? ==> d.result.value.TupleObj? && |d.result.value.elems| == |ids|
  {
    if |ids| > 1 then
      match Entries(res)
      case None => Dumped(Err(IndexingError(res)), disk)
      case Some(items) =>
        DumpPrefixOk(items, tmpDir, ids, |ids|, disk);
        var d := DumpPrefix(items, tmpDir, ids, |ids|, disk);
        match d.result
        case Ok(paths) =>
          DumpPrefixPaths(items, tmpDir, ids, |ids|, disk);
          Dumped(Ok(TupleObj(paths)), d.disk)
        case Err(e) => Dumped(Err(e), d.disk)
    else if |ids| == 0 then Dumped(Err(IndexError("list index out of range")), disk)
    else
      var d := DumpOne(res, tmpDir, ids[0], disk);
      match d.result
      case Ok(path) => Dumped(Ok(StrObj(path)), d.disk)
      case Err(e) => Dumped(Err(e), d.disk)
  }

  /**
   * A string result under several ids fails at its first character: `res[0]` raises IndexError
   * on an empty string, and otherwise the one-character string reaches `dump_single_object`,
   * which raises. Nothing is written.
   */
  lemma DumpStringResult(s: string, tmpDir: string, ids: seq<int>, disk: Disk)
    requires |ids| > 1
    ensures DumpSpec(StrObj(s), tmpDir, ids, disk)
            == Dumped(Err(if |s| == 0 then IndexError("index out of range") else Raised("Not an arrays or points")), disk)
  {
    var items := Entries(StrObj(s)).value;
    assert DumpPrefix(items, tmpDir, ids, 1, disk).result.Err?;
    DumpPrefixStops(items, tmpDir, ids, 1, |ids|, disk);
  }

  /** Step i of the loop continues from the state after the steps before it. */
  lemma DumpPrefixNext(items: seq<Obj>, tmpDir: string, ids: seq<int>, i: nat, disk: Disk, before: Dumped<seq<Obj>>)
    requires i < |ids| && DumpPrefix(items, tmpDir, ids, i, disk) == before
    ensures DumpPrefix(items, tmpDir, ids, i + 1, disk) == DumpStep(before, items, tmpDir, ids, i)
  {
  }

  /** One iteration of the loop of `dump`: entry i dumped after the paths gathered so far. */
  method DumpEntry(paths: seq<Obj>, disk: Disk, items: seq<Obj>, tmpDir: string, ids: seq<int>, i: nat)
    returns (r: Result<seq<Obj>>, disk': Disk)
    requires i < |ids|
    ensures Dumped(r, disk') == DumpStep(Dumped(Ok(paths), disk), items, tmpDir, ids, i)
  {
    if i >= |items| {
      return Err(IndexError("index out of range")), disk;
    }
    if items[i] == NoneObj {
      return Ok(paths + [NoneObj]), disk;
    }
    var one := DumpOne(items[i], tmpDir, ids[i], disk);
    if one.result.Err? {
      return Err(one.result.error), one.disk;
    }
    r, disk' := Ok(paths + [StrObj(one.result.value)]), one.disk;
  }

  /** The loop of `dump` over several ids; the first entry that raises ends it. */
  method DumpEntries(items: seq<Obj>, tmpDir: string, ids: seq<int>, disk: Disk) returns (r: Result<seq<Obj>>, disk': Disk)
    ensures Dumped(r, disk') == DumpPrefix(items, tmpDir, ids, |ids|, disk)
  {
    r, disk' := Ok([]), disk;
    var i := 0;
    while i < |ids|
      invariant 0 <= i <= |ids| && r.Ok?
      invariant DumpPrefix(items, tmpDir, ids, i, disk) == Dumped(r, disk')
    {
      DumpPrefixNext(items, tmpDir, ids, i, disk, Dumped(r, disk'));
      r, disk' := DumpEntry(r.value, disk', items, tmpDir, ids, i);
      i := i + 1;
      if r.Err? {
        DumpPrefixStops(items, tmpDir, ids, i, |ids|, disk);
        return;
      }
    }
  }

  /** `dump`: a tuple of paths for several ids, a single path for one. */
  method Dump(res: Obj, tmpDir: string, ids: seq<int>, disk: Disk) returns (r: Result<Obj>, disk': Disk)
    ensures Dumped(r, disk') == DumpSpec(res, tmpDir, ids, disk)
  {
    if |ids| > 1 {
      var entries := Entries(res);
      if entries.None? {
        return Err(IndexingError(res)), disk;
      }
      var paths;
      paths, disk' := DumpEntries(entries.value, tmpDir, ids, disk);
      if paths.Err? {
        return Err(paths.error), disk';
      }
      r := Ok(TupleObj(paths.value));
    } else if |ids| == 0 {
      r, disk' := Err(IndexError("list index out of range")), disk;
    } else {
      var one := DumpOne(res, tmpDir, ids[0], disk);
      if one.result.Err? {
        return Err(one.result.error), one.disk;
      }
      r, disk' := Ok(StrObj(one.result.value)), one.disk;
    }
  }

  // ---------------------------------------------------------------------------
  // Properties of handles

  /** A tile's handle contains the name of its kind, so `is_dumped_object` recognises it. */
  lemma HandleRecognised(obj: Obj, tmpDir: string, id: int)
    requires IsTile(obj)
    ensures IsDumpedObject(StrObj(Handle(obj, tmpDir, id)))
    ensures obj.ArraysObj? ==> Contains(Handle(obj, tmpDir, id), DENSE_NAME)
    ensures obj.PointsObj? ==> Contains(Handle(obj, tmpDir, id), SPARSE_NAME)
  {
    var name := if obj.ArraysObj? then DENSE_NAME else SPARSE_NAME;
    ContainsInside(JoinPrefix(tmpDir), name, "_" + IntToString(id));
    assert JoinPrefix(tmpDir) + name + ("_" + IntToString(id)) == Handle(obj, tmpDir, id);
  }

  /** "DenseDO" never occurs in a sparse tile's file name. */
  lemma SparseNameLacksDense(id: int)
    ensures !Contains(SPARSE_NAME + "_" + IntToString(id), DENSE_NAME)
  {
    var digits := IntToString(id);
    assert !Contains(SPARSE_NAME, DENSE_NAME) by {
      assert SPARSE_NAME[..7] != DENSE_NAME by { assert SPARSE_NAME[0] != DENSE_NAME[0]; }
      assert SPARSE_NAME[1..][..7] != DENSE_NAME by { assert SPARSE_NAME[1] != DENSE_NAME[0]; }
      assert !Contains(SPARSE_NAME[1..][1..], DENSE_NAME);
    }
    assert DENSE_NAME[0] !in digits by {
      IntToStringChars(id);
      assert !IsDigit(DENSE_NAME[0]) && DENSE_NAME[0] != '-';
    }
    NotContainsWithoutFirst(digits, DENSE_NAME);
    NotContainsAcross(SPARSE_NAME, '_', digits, DENSE_NAME);
    assert SPARSE_NAME + "_" + digits == SPARSE_NAME + ['_'] + digits;
  }

  /** A point tile's handle holds no "DenseDO" when its directory holds none. */
  lemma SparseHandleLacksDense(obj: Obj, tmpDir: string, id: int)
    requires obj.PointsObj? && !Contains(tmpDir, DENSE_NAME)
    ensures !Contains(Handle(obj, tmpDir, id), DENSE_NAME)
  {
    var name := TileFileName(obj, id);
    SparseNameLacksDense(id);
    assert name[0] == 'S';
    JoinNotContains(tmpDir, name, DENSE_NAME);
  }

  /**
   * Loading a tile's handle gives the tile back, provided the directory's own path does not
   * contain "DenseDO" (otherwise every handle there would be read as a dense tile).
   */
  lemma LoadCreated(obj: Obj, tmpDir: string, id: int, disk: Disk)
    requires IsTile(obj) && !Contains(tmpDir, DENSE_NAME)
    requires Handle(obj, tmpDir, id) in disk && disk[Handle(obj, tmpDir, id)] == obj
    ensures Load(Some(Handle(obj, tmpDir, id)), disk) == Ok(obj)
  {
    HandleRecognised(obj, tmpDir, id);
    if obj.PointsObj? {
      SparseHandleLacksDense(obj, tmpDir, id);
    }
  }

  /** A directory whose path contains "DenseDO" turns a dumped point tile into a load error. */
  lemma DenseDirectoryBreaksSparseLoad(pts: seq<real>)
    ensures var path := Handle(PointsObj(pts), "DenseDO", 0);
            Load(Some(path), map[path := PointsObj(pts)]).Err?
  {
    var path := Handle(PointsObj(pts), "DenseDO", 0);
    var rest := "/" + SPARSE_NAME + "_" + IntToString(0);
    assert path == DENSE_NAME + rest;
    ContainsInside([], DENSE_NAME, rest);
    assert [] + DENSE_NAME + rest == DENSE_NAME + rest;
  }

  /** Tiles dumped under different ids get different handles. */
  lemma HandleInjective(a: Obj, b: Obj, tmpDir: string, i: int, j: int)
    requires IsTile(a) && IsTile(b) && i != j
    ensures Handle(a, tmpDir, i) != Handle(b, tmpDir, j)
  {
    var na := if a.ArraysObj? then DENSE_NAME else SPARSE_NAME;
    var nb := if b.ArraysObj? then DENSE_NAME else SPARSE_NAME;
    var sa, sb := TileFileName(a, i), TileFileName(b, j);
    var pre := JoinPrefix(tmpDir);
    if pre + sa == pre + sb {
      assert sa == (pre + sa)[|pre|..];
      assert sb == (pre + sb)[|pre|..];
      assert sa[0] == na[0] && sb[0] == nb[0];
      assert IntToString(i) == sa[|na| + 1..];
      assert IntToString(j) == sb[|nb| + 1..];
      IntToStringInjective(i, j);
    }
  }

  // ---------------------------------------------------------------------------
  // Properties of dump

  /** The ids handed out to a task never repeat. */
  ghost predicate Distinct(ids: seq<int>) {
    forall a, b :: 0 <= a < b < |ids| ==> ids[a] != ids[b]
  }

  /** What the loop yields for one entry: None for None, the entry's handle for a tile. */
  function PathEntry(item: Obj, tmpDir: string, id: int): Obj {
    if IsTile(item) then StrObj(Handle(item, tmpDir, id)) else NoneObj
  }

  /** One step succeeds when the loop has not stopped and the entry is None or a tile, and appends its path. */
  lemma DumpStepShape(before: Dumped<seq<Obj>>, items: seq<Obj>, tmpDir: string, ids: seq<int>, i: nat)
    requires i < |ids|
    ensures var after := DumpStep(before, items, tmpDir, ids, i);
            after.result.Ok? <==> before.result.Ok? && i < |items| && (items[i] == NoneObj || IsTile(items[i]))
    ensures var after := DumpStep(before, items, tmpDir, ids, i);
            after.result.Ok? ==> after.result.value == before.result.value + [PathEntry(items[i], tmpDir, ids[i])]
  {
  }

  /** The first n entries exist and are each None or a tile. */
  predicate Dumpable(items: seq<Obj>, n: nat) {
    n <= |items| && forall i :: 0 <= i < n ==> items[i] == NoneObj || IsTile(items[i])
  }

  lemma DumpableStep(items: seq<Obj>, n: nat)
    requires n > 0
    ensures Dumpable(items, n) <==>
            Dumpable(items, n - 1) && n - 1 < |items| && (items[n - 1] == NoneObj || IsTile(items[n - 1]))
  {
    if Dumpable(items, n - 1) && n - 1 < |items| && (items[n - 1] == NoneObj || IsTile(items[n - 1])) {
      forall i | 0 <= i < n
        ensures items[i] == NoneObj || IsTile(items[i])
      {
        if i < n - 1 {
          assert items[i] == NoneObj || IsTile(items[i]);
        }
      }
    }
  }

  /** The multi-output loop succeeds exactly when every id has an entry that is None or a tile. */
  lemma {:induction false} DumpPrefixOk(items: seq<Obj>, tmpDir: string, ids: seq<int>, n: nat, disk: Disk)
    requires n <= |ids|
    ensures DumpPrefix(items, tmpDir, ids, n, disk).result.Ok? <==> Dumpable(items, n)
  {
    if n > 0 {
      var before := DumpPrefix(items, tmpDir, ids, n - 1, disk);
      assert DumpPrefix(items, tmpDir, ids, n, disk) == DumpStep(before, items, tmpDir, ids, n - 1);
      DumpPrefixOk(items, tmpDir, ids, n - 1, disk);
      DumpStepShape(before, items, tmpDir, ids, n - 1);
      DumpableStep(items, n);
    }
  }

  /**
   * A successful loop yields one path per id: None where the entry is None, the entry's handle
   * elsewhere.
   */
  lemma {:induction false} DumpPrefixPaths(items: seq<Obj>, tmpDir: string, ids: seq<int>, n: nat, disk: Disk)
    requires n <= |ids|
    requires DumpPrefix(items, tmpDir, ids, n, disk).result.Ok?
    ensures var paths := DumpPrefix(items, tmpDir, ids, n, disk).result.value;
            |paths| == n && forall i :: 0 <= i < n ==> paths[i] == PathEntry(items[i], tmpDir, ids[i])
  {
    if n > 0 {
      var before := DumpPrefix(items, tmpDir, ids, n - 1, disk);
      assert DumpPrefix(items, tmpDir, ids, n, disk) == DumpStep(before, items, tmpDir, ids, n - 1);
      DumpStepShape(before, items, tmpDir, ids, n - 1);
      assert before.result.Ok? && n <= |items|;
      DumpPrefixPaths(items, tmpDir, ids, n - 1, disk);
      var paths := before.result.value + [PathEntry(items[n - 1], tmpDir, ids[n - 1])];
      assert DumpPrefix(items, tmpDir, ids, n, disk).result.value == paths;
      forall i | 0 <= i < n
        ensures paths[i] == PathEntry(items[i], tmpDir, ids[i])
      {
        if i < n - 1 {
          assert paths[i] == before.result.value[i];
        }
      }
    }
  }

  /** The handles the first n steps of the loop write to: those of the tiles among the first n entries. */
  ghost function Written(items: seq<Obj>, tmpDir: string, ids: seq<int>, n: nat): (w: set<string>)
    requires n <= |ids|
  {
    if n == 0 then {}
    else if n - 1 < |items| && IsTile(items[n - 1])
    then Written(items, tmpDir, ids, n - 1) + {Handle(items[n - 1], tmpDir, ids[n - 1])}
    else Written(items, tmpDir, ids, n - 1)
  }

  /** Entry i is a tile whose handle is p. */
  ghost predicate WrittenBy(items: seq<Obj>, tmpDir: string, ids: seq<int>, i: int, p: string) {
    0 <= i < |ids| && i < |items| && IsTile(items[i]) && p == Handle(items[i], tmpDir, ids[i])
  }

  /** Every written path is the handle of one of the first n entries, which is a tile. */
  lemma {:induction false} WrittenWitness(items: seq<Obj>, tmpDir: string, ids: seq<int>, n: nat, p: string)
    returns (i: int)
    requires n <= |ids| && p in Written(items, tmpDir, ids, n)
    ensures 0 <= i < n && WrittenBy(items, tmpDir, ids, i, p)
  {
    if WrittenBy(items, tmpDir, ids, n - 1, p) {
      i := n - 1;
    } else {
      i := WrittenWitness(items, tmpDir, ids, n - 1, p);
    }
  }

  /** The handle of each tile among the first n entries is written. */
  lemma {:induction false} WrittenHandle(items: seq<Obj>, tmpDir: string, ids: seq<int>, n: nat, i: int, p: string)
    requires n <= |ids| && 0 <= i < n && WrittenBy(items, tmpDir, ids, i, p)
    ensures p in Written(items, tmpDir, ids, n)
  {
    if i < n - 1 {
      WrittenHandle(items, tmpDir, ids, n - 1, i, p);
    }
  }

  /** One step of the loop leaves the storage as it was or writes its tile at the tile's handle. */
  lemma DumpStepDisk(before: Dumped<seq<Obj>>, items: seq<Obj>, tmpDir: string, ids: seq<int>, i: nat)
    requires i < |ids|
    ensures var after := DumpStep(before, items, tmpDir, ids, i);
            if before.result.Ok? && i < |items| && IsTile(items[i])
            then after.disk == before.disk[Handle(items[i], tmpDir, ids[i]) := items[i]]
            else after.disk == before.disk
  {
  }

  /** Every tile among the first n entries is stored at its handle in d. */
  ghost predicate StoresTiles(d: Disk, items: seq<Obj>, tmpDir: string, ids: seq<int>, n: nat)
    requires n <= |ids|
  {
    forall i :: 0 <= i < n && i < |items| && IsTile(items[i]) ==>
      Handle(items[i], tmpDir, ids[i]) in d && d[Handle(items[i], tmpDir, ids[i])] == items[i]
  }

  /** Storing entry n - 1 at its handle keeps the earlier tiles, whose handles differ. */
  lemma StoresTilesStep(before: Disk, after: Disk, items: seq<Obj>, tmpDir: string, ids: seq<int>, n: nat)
    requires 0 < n <= |ids| && n - 1 < |items| && Distinct(ids)
    requires StoresTiles(before, items, tmpDir, ids, n - 1)
    requires IsTile(items[n - 1]) ==> after == before[Handle(items[n - 1], tmpDir, ids[n - 1]) := items[n - 1]]
    requires !IsTile(items[n - 1]) ==> after == before
    ensures StoresTiles(after, items, tmpDir, ids, n)
  {
    forall i | 0 <= i < n && i < |items| && IsTile(items[i])
      ensures Handle(items[i], tmpDir, ids[i]) in after && after[Handle(items[i], tmpDir, ids[i])] == items[i]
    {
      if i < n - 1 && IsTile(items[n - 1]) {
        HandleInjective(items[i], items[n - 1], tmpDir, ids[i], ids[n - 1]);
      }
    }
  }

  /** With distinct ids, after a successful loop every dumped entry is stored at its own handle. */
  lemma {:induction false} DumpPrefixStored(items: seq<Obj>, tmpDir: string, ids: seq<int>, n: nat, disk: Disk)
    requires n <= |ids| && Distinct(ids)
    requires DumpPrefix(items, tmpDir, ids, n, disk).result.Ok?
    ensures StoresTiles(DumpPrefix(items, tmpDir, ids, n, disk).disk, items, tmpDir, ids, n)
  {
    if n > 0 {
      var before := DumpPrefix(items, tmpDir, ids, n - 1, disk);
      assert DumpPrefix(items, tmpDir, ids, n, disk) == DumpStep(before, items, tmpDir, ids, n - 1);
      DumpStepShape(before, items, tmpDir, ids, n - 1);
      DumpStepDisk(before, items, tmpDir, ids, n - 1);
      DumpPrefixStored(items, tmpDir, ids, n - 1, disk);
      StoresTilesStep(before.disk, DumpPrefix(items, tmpDir, ids, n, disk).disk, items, tmpDir, ids, n);
    }
  }

  /** d holds every path of disk and differs from it only at paths of w, which it may add. */
  ghost predicate FramedBy(disk: Disk, d: Disk, w: set<string>) {
    forall p :: (p in disk ==> p in d) && (p !in w ==> (p in d <==> p in disk) && (p in disk ==> d[p] == disk[p]))
  }

  /** Adding a path to w keeps the frame, and so does writing at that path. */
  lemma FramedByStep(disk: Disk, before: Disk, w: set<string>, path: string, v: Obj)
    requires FramedBy(disk, before, w)
    ensures FramedBy(disk, before, w + {path}) && FramedBy(disk, before[path := v], w + {path})
  {
  }

  /** The loop writes nothing but the handles of the tiles it dumps. */
  lemma {:induction false} DumpPrefixFrame(items: seq<Obj>, tmpDir: string, ids: seq<int>, n: nat, disk: Disk)
    requires n <= |ids|
    ensures FramedBy(disk, DumpPrefix(items, tmpDir, ids, n, disk).disk, Written(items, tmpDir, ids, n))
  {
    if n > 0 {
      var before := DumpPrefix(items, tmpDir, ids, n - 1, disk);
      var after := DumpPrefix(items, tmpDir, ids, n, disk);
      assert after == DumpStep(before, items, tmpDir, ids, n - 1);
      DumpPrefixFrame(items, tmpDir, ids, n - 1, disk);
      DumpStepDisk(before, items, tmpDir, ids, n - 1);
      if n - 1 < |items| && IsTile(items[n - 1]) {
        FramedByStep(disk, before.disk, Written(items, tmpDir, ids, n - 1),
                     Handle(items[n - 1], tmpDir, ids[n - 1]), items[n - 1]);
      }
    }
  }

  /**
   * A result dumped with several distinct ids loads back entry by entry: every non-None path
   * of the returned tuple loads the entry it was dumped from.
   */
  lemma DumpRoundTrip(res: Obj, tmpDir: string, ids: seq<int>, disk: Disk, i: int)
    requires |ids| > 1 && Distinct(ids) && !Contains(tmpDir, DENSE_NAME)
    requires DumpSpec(res, tmpDir, ids, disk).result.Ok?
    requires 0 <= i < |ids|
    ensures var d := DumpSpec(res, tmpDir, ids, disk);
            d.result.value.TupleObj? && |d.result.value.elems| == |ids| &&
            (Entries(res).value[i] == NoneObj ==> d.result.value.elems[i] == NoneObj) &&
            (Entries(res).value[i] != NoneObj ==>
               d.result.value.elems[i].StrObj? &&
               Load(Some(d.result.value.elems[i].s), d.disk) == Ok(Entries(res).value[i]))
  {
    var items := Entries(res).value;
    DumpPrefixOk(items, tmpDir, ids, |ids|, disk);
    DumpPrefixPaths(items, tmpDir, ids, |ids|, disk);
    DumpPrefixStored(items, tmpDir, ids, |ids|, disk);
    if items[i] != NoneObj {
      assert IsTile(items[i]);
      LoadCreated(items[i], tmpDir, ids[i], DumpPrefix(items, tmpDir, ids, |ids|, disk).disk);
    }
  }

  /** A result dumped with one id is a single handle that loads back the result. */
  lemma DumpSingleRoundTrip(res: Obj, tmpDir: string, id: int, disk: Disk)
    requires !Contains(tmpDir, DENSE_NAME)
    ensures DumpSpec(res, tmpDir, [id], disk).result.Ok? <==> IsTile(res)
    ensures var d := DumpSpec(res, tmpDir, [id], disk);
            d.result.Ok? ==> d.result.value.StrObj? && Load(Some(d.result.value.s), d.disk) == Ok(res)
  {
    if IsTile(res) {
      LoadCreated(res, tmpDir, id, DumpOne(res, tmpDir, id, disk).disk);
    }
  }

  // ---------------------------------------------------------------------------
  // Loading task arguments

  /** Two values have the same list nesting: lists of the same lengths at the same places. */
  predicate SameShape(a: Obj, b: Obj)
    decreases a
  {
    if a.ListObj? then
      b.ListObj? && |a.items| == |b.items| && forall i :: 0 <= i < |a.items| ==> SameShape(a.items[i], b.items[i])
    else !b.ListObj?
  }

  /** One argument of `load_args`: lists are loaded recursively, handles loaded, the rest kept. */
  function LoadArg(arg: Obj, disk: Disk): (r: Result<Obj>)
    ensures r.Ok? ==> SameShape(arg, r.value)
    ensures !arg.ListObj? && !IsDumpedObject(arg) ==> r == Ok(arg)
    ensures IsDumpedObject(arg) ==> r == Load(Some(arg.s), disk)
    decreases arg, 1
  {
    if arg.ListObj? then
      match LoadArgs(arg.items, disk)
      case Ok(items) => Ok(ListObj(items))
      case Err(e) => Err(e)
    else if IsDumpedObject(arg) then Load(Some(arg.s), disk)
    else Ok(arg)
  }

  /**
   * `load_args`: the arguments with every handle, at any depth of list nesting, replaced by
   * the tile it names; lengths and nesting are kept. The first handle that fails to load raises.
   */
  function LoadArgs(args: seq<Obj>, disk: Disk): (r: Result<seq<Obj>>)
    ensures r.Ok? ==> |r.value| == |args|
    ensures r.Ok? ==> forall i :: 0 <= i < |args| ==> LoadArg(args[i], disk) == Ok(r.value[i])
    ensures r.Err? ==> exists i :: 0 <= i < |args| && LoadArg(args[i], disk).Err?
    decreases args, 0
  {
    if |args| == 0 then Ok([])
    else
      match LoadArg(args[0], disk)
      case Err(e) => Err(e)
      case Ok(a) =>
        match LoadArgs(args[1..], disk)
        case Err(e) => Err(e)
        case Ok(rest) => Ok([a] + rest)
  }

  /** No handle occurs anywhere in a value's list nesting. */
  predicate NoHandles(a: Obj)
    decreases a
  {
    if a.ListObj? then forall i :: 0 <= i < |a.items| ==> NoHandles(a.items[i])
    else !IsDumpedObject(a)
  }

  /** Arguments holding no handle are passed through unchanged. */
  lemma {:induction false} LoadArgsNoHandles(args: seq<Obj>, disk: Disk)
    requires forall i :: 0 <= i < |args| ==> NoHandles(args[i])
    ensures LoadArgs(args, disk) == Ok(args)
    decreases args
  {
    if |args| > 0 {
      LoadArgNoHandles(args[0], disk);
      LoadArgsNoHandles(args[1..], disk);
      assert args == [args[0]] + args[1..];
    }
  }

  lemma {:induction false} LoadArgNoHandles(arg: Obj, disk: Disk)
    requires NoHandles(arg)
    ensures LoadArg(arg, disk) == Ok(arg)
    decreases arg
  {
    if arg.ListObj? {
      LoadArgsNoHandles(arg.items, disk);
    }
  }

  /** The value `load_kwargs` puts under one key. */
  function LoadValue(v: Obj, disk: Disk): (r: Result<Obj>)
    ensures !IsDumpedObject(v) ==> r == Ok(v)
    ensures r.Ok? && IsDumpedObject(v) ==> IsTile(r.value)
  {
    if IsDumpedObject(v) then Load(Some(v.s), disk) else Ok(v)
  }

  /**
   * What `load_kwargs` builds from the first n entries: the same keys in the same order, every
   * handle value replaced by its tile (lists are not looked into); the first handle that fails to
   * load raises.
   */
  function LoadedKwargs(kwargs: Dict, n: nat, disk: Disk): (r: Result<Dict>)
    requires n <= |kwargs|
    ensures r.Ok? ==> |r.value| == n && Keys(r.value) == Keys(kwargs[..n])
    ensures r.Ok? ==> forall i :: 0 <= i < n ==> LoadValue(kwargs[i].1, disk) == Ok(r.value[i].1)
    ensures r.Err? <==> exists i :: 0 <= i < n && LoadValue(kwargs[i].1, disk).Err?
  {
    if n == 0 then Ok([])
    else
      match LoadedKwargs(kwargs, n - 1, disk)
      case Err(e) => Err(e)
      case Ok(before) =>
        match LoadValue(kwargs[n - 1].1, disk)
        case Err(e) => Err(e)
        case Ok(v) =>
          KeysAppend(before, [(kwargs[n - 1].0, v)]);
          KeysAppend(kwargs[..n - 1], [kwargs[n - 1]]);
          assert kwargs[..n] == kwargs[..n - 1] + [kwargs[n - 1]];
          Ok(before + [(kwargs[n - 1].0, v)])
  }

  /** Once a value fails to load, the later keys change nothing: the loop has stopped. */
  lemma {:induction false} LoadedKwargsStops(kwargs: Dict, m: nat, n: nat, disk: Disk)
    requires m <= n <= |kwargs|
    requires LoadedKwargs(kwargs, m, disk).Err?
    ensures LoadedKwargs(kwargs, n, disk) == LoadedKwargs(kwargs, m, disk)
    decreases n - m
  {
    if m < n {
      LoadedKwargsStops(kwargs, m, n - 1, disk);
    }
  }

  /** `load_kwargs`, with its loop over the keys. */
  method LoadKwargs(kwargs: Dict, disk: Disk) returns (r: Result<Dict>)
    requires UniqueKeys(kwargs)
    ensures r == LoadedKwargs(kwargs, |kwargs|, disk)
  {
    var loaded: Dict := [];
    var i := 0;
    while i < |kwargs|
      invariant 0 <= i <= |kwargs|
      invariant LoadedKwargs(kwargs, i, disk) == Ok(loaded)
    {
      var key := kwargs[i].0;
      var value := LoadValue(kwargs[i].1, disk);
      if value.Err? {
        LoadedKwargsStops(kwargs, i + 1, |kwargs|, disk);
        return Err(value.error);
      }
      UniqueKeyNotBefore(kwargs, i);
      SetNew(loaded, key, value.value);
      loaded := Set(loaded, key, value.value);
      i := i + 1;
    }
    r := Ok(loaded);
  }

  /** The keyword arguments a task sees keep the caller's keys, in the caller's order. */
  lemma LoadKwargsKeys(kwargs: Dict, disk: Disk)
    ensures var r := LoadedKwargs(kwargs, |kwargs|, disk);
            r.Ok? ==> Keys(r.value) == Keys(kwargs) && forall i :: 0 <= i < |kwargs| && !IsDumpedObject(kwargs[i].1) ==> r.value[i] == kwargs[i]
  {
    assert kwargs[..|kwargs|] == kwargs;
    var r := LoadedKwargs(kwargs, |kwargs|, disk);
    if r.Ok? {
      KeysAt(r.value);
      KeysAt(kwargs);
    }
  }

  // ---------------------------------------------------------------------------
  // The wrapped task functions

  /** Calling a task function object with positional and keyword arguments. */
  type Callee = (Obj, seq<Obj>, Dict) -> Result<Obj>

  /** `none_wrapper_fun`: call `kwargs["fun"]` with the other keyword arguments. */
  function NoneWrapperFun(args: seq<Obj>, kwargs: Dict, call: Callee): (r: Result<Obj>)
    ensures "fun" !in Keys(kwargs) ==> r == Err(KeyError("fun"))
  {
    match Get(kwargs, "fun")
    case None => Err(KeyError("fun"))
    case Some(func) =>
      match Pop(kwargs, "fun")
      case Err(e) => Err(e)
      case Ok(rest) => call(func, args, rest)
  }

  /** The three entries `disk_wrapper_fun` takes out of its keyword arguments, and the rest. */
  datatype TaskSetup = TaskSetup(idList: Obj, fun: Obj, tmpDir: Obj, rest: Dict)

  /** Reads `id_list`, `fun` and `tmp_dir` (a KeyError for the first missing), then pops all three. */
  function UnwrapTask(kwargs: Dict): (r: Result<TaskSetup>)
    ensures "id_list" !in Keys(kwargs) ==> r == Err(KeyError("id_list"))
    ensures "id_list" in Keys(kwargs) && "fun" !in Keys(kwargs) ==> r == Err(KeyError("fun"))
    ensures "id_list" in Keys(kwargs) && "fun" in Keys(kwargs) && "tmp_dir" !in Keys(kwargs) ==> r == Err(KeyError("tmp_dir"))
  {
    match (Get(kwargs, "id_list"), Get(kwargs, "fun"), Get(kwargs, "tmp_dir"))
    case (None, _, _) => Err(KeyError("id_list"))
    case (_, None, _) => Err(KeyError("fun"))
    case (_, _, None) => Err(KeyError("tmp_dir"))
    case (Some(ids), Some(func), Some(tmp)) =>
      match Pop(kwargs, "id_list")
      case Err(e) => Err(e)
      case Ok(k1) =>
        match Pop(k1, "fun")
        case Err(e) => Err(e)
        case Ok(k2) =>
          match Pop(k2, "tmp_dir")
          case Err(e) => Err(e)
          case Ok(rest) => Ok(TaskSetup(ids, func, tmp, rest))
  }

  /**
   * With all three present, the setup is read and the three entries are gone from the arguments
   * the task sees; every other entry is kept.
   */
  lemma UnwrapTaskRest(kwargs: Dict, k: string)
    requires UniqueKeys(kwargs)
    requires "id_list" in Keys(kwargs) && "fun" in Keys(kwargs) && "tmp_dir" in Keys(kwargs)
    ensures UnwrapTask(kwargs).Ok?
    ensures var setup := UnwrapTask(kwargs).value;
            Some(setup.idList) == Get(kwargs, "id_list") && Some(setup.fun) == Get(kwargs, "fun") &&
            Some(setup.tmpDir) == Get(kwargs, "tmp_dir") && UniqueKeys(setup.rest) &&
            Get(setup.rest, k) == if k in ["id_list", "fun", "tmp_dir"] then None else Get(kwargs, k)
  {
    PopGet(kwargs, "id_list", k);
    PopGet(kwargs, "id_list", "fun");
    PopGet(kwargs, "id_list", "tmp_dir");
    var k1 := Pop(kwargs, "id_list").value;
    PopGet(k1, "fun", k);
    PopGet(k1, "fun", "tmp_dir");
    var k2 := Pop(k1, "fun").value;
    PopGet(k2, "tmp_dir", k);
  }

  /** The ids of an `id_list`: a list or tuple of ints. */
  function IdList(o: Obj): (r: Option<seq<int>>)
    ensures r.Some? ==> Entries(o).Some? && |r.value| == |Entries(o).value| &&
                        forall i :: 0 <= i < |r.value| ==> Entries(o).value[i] == IntObj(r.value[i])
  {
    match Entries(o)
    case None => None
    case Some(items) =>
      if forall i :: 0 <= i < |items| ==> items[i].IntObj? then Some(seq(|items|, i requires 0 <= i < |items| => items[i].i))
      else None
  }

  /** The model's error for an `id_list` that is not a list of ints or a `tmp_dir` that is not a str. */
  const SETUP_TYPE_ERROR: Error := TypeError("id_list must hold ints and tmp_dir must be a str")

  /**
   * `disk_wrapper_fun`: take the setup out of the keyword arguments, load the handles among the
   * arguments, call the function, and dump a result that is not None.
   */
  method DiskWrapperFun(args: seq<Obj>, kwargs: Dict, call: Callee, disk: Disk) returns (r: Result<Obj>, disk': Disk)
    requires UniqueKeys(kwargs)
    ensures UnwrapTask(kwargs).Err? ==> r == Err(UnwrapTask(kwargs).error) && disk' == disk
    ensures r.Ok? ==> UnwrapTask(kwargs).Ok? && LoadArgs(args, disk).Ok? &&
                      LoadedKwargs(UnwrapTask(kwargs).value.rest, |UnwrapTask(kwargs).value.rest|, disk).Ok?
    ensures UnwrapTask(kwargs).Ok? && LoadArgs(args, disk).Ok? &&
            LoadedKwargs(UnwrapTask(kwargs).value.rest, |UnwrapTask(kwargs).value.rest|, disk).Ok? ==>
              var setup := UnwrapTask(kwargs).value;
              var res := call(setup.fun, LoadArgs(args, disk).value, LoadedKwargs(setup.rest, |setup.rest|, disk).value);
              (res.Err? ==> r == res && disk' == disk) &&
              (res == Ok(NoneObj) ==> r == Ok(NoneObj) && disk' == disk) &&
              (res.Ok? && res.value != NoneObj && IdList(setup.idList).Some? && setup.tmpDir.StrObj? ==>
                 Dumped(r, disk') == DumpSpec(res.value, setup.tmpDir.s, IdList(setup.idList).value, disk)) &&
              (res.Ok? && res.value != NoneObj && (IdList(setup.idList).None? || !setup.tmpDir.StrObj?) ==>
                 r == Err(SETUP_TYPE_ERROR) && disk' == disk)
  {
    var setup := UnwrapTask(kwargs);
    if setup.Err? {
      return Err(setup.error), disk;
    }
    UnwrapTaskRest(kwargs, "");
    var loadedArgs := LoadArgs(args, disk);
    if loadedArgs.Err? {
      return Err(loadedArgs.error), disk;
    }
    var loadedKwargs := LoadKwargs(setup.value.rest, disk);
    if loadedKwargs.Err? {
      return Err(loadedKwargs.error), disk;
    }
    var res := call(setup.value.fun, loadedArgs.value, loadedKwargs.value);
    if res.Err? {
      return res, disk;
    }
    if res.value == NoneObj {
      return Ok(NoneObj), disk;
    }
    var ids := IdList(setup.value.idList);
    if ids.None? || !setup.value.tmpDir.StrObj? {
      return Err(SETUP_TYPE_ERROR), disk;
    }
    r, disk' := Dump(res.value, setup.value.tmpDir.s, ids.value, disk);
  }

  // ---------------------------------------------------------------------------
  // The wrappers

  /** Which wrapped function a task runs. */
  datatype WrappedFun = NoneWrapped | DiskWrapped

  /** A keyword-argument dict that the wrappers update in place. */
  class Kwargs {
    var entries: Dict

    constructor(entries: Dict)
      ensures this.entries == entries
    {
      this.entries := entries;
    }

    /** `kwargs[k] = v` */
    method SetItem(k: string, v: Obj)
      modifies this
      ensures entries == Set(old(entries), k, v)
    {
      entries := Set(entries, k, v);
    }
  }

  /** The ids `start`, `start + 1`, ..., `start + n - 1`. */
  function Consecutive(start: int, n: nat): (ids: seq<Obj>)
    ensures |ids| == n
    ensures forall i :: 0 <= i < n ==> ids[i] == IntObj(start + i)
  {
    if n == 0 then [] else Consecutive(start, n - 1) + [IntObj(start + n - 1)]
  }

  /** The ids from `start` up to but not including `start + n`. */
  function IdRange(start: int, n: nat): (ids: set<int>)
    ensures forall id :: id in ids <==> start <= id < start + n
  {
    if n == 0 then {} else IdRange(start, n - 1) + {start + n - 1}
  }

  /** `WrapperNone`: tasks run in memory, no directory. */
  class WrapperNone {
    constructor(tmpDir: string)
    {
    }

    /** Adds `fun` to the caller's dict (in place) and returns that dict. */
    method GetFunctionAndKwargs(func: Obj, kwargs: Kwargs, nout: int) returns (newFunc: WrappedFun, newKwargs: Kwargs)
      modifies kwargs
      ensures newFunc == NoneWrapped && newKwargs == kwargs
      ensures kwargs.entries == Set(old(kwargs.entries), "fun", func)
    {
      newFunc := NoneWrapped;
      newKwargs := kwargs;
      newKwargs.SetItem("fun", func);
    }
  }

  /** `WrapperDisk`: results go to `<tmp_dir>/tmp`, under ids from a counter. */
  class WrapperDisk {
    var tmpDir: string
    var currentObjectId: int
    /** Every id handed out so far. */
    ghost var issued: set<int>

    ghost predicate Valid()
      reads this
    {
      currentObjectId >= 0 && forall id :: id in issued ==> 0 <= id < currentObjectId
    }

    constructor(tmpDir: string)
      ensures this.tmpDir == Join(tmpDir, "tmp") && currentObjectId == 0
      ensures Valid() && issued == {}
    {
      this.tmpDir := Join(tmpDir, "tmp");
      currentObjectId := 0;
      issued := {};
    }

    /**
     * Hands out `nout` consecutive ids from the counter, advances it by `nout`, and adds
     * `id_list`, `fun` and `tmp_dir` to the caller's dict in place. The new ids were never
     * handed out before.
     */
    method GetFunctionAndKwargs(func: Obj, kwargs: Kwargs, nout: nat) returns (newFunc: WrappedFun, newKwargs: Kwargs)
      requires Valid()
      modifies this, kwargs
      ensures Valid() && tmpDir == old(tmpDir)
      ensures currentObjectId == old(currentObjectId) + nout
      ensures newFunc == DiskWrapped && newKwargs == kwargs
      ensures kwargs.entries
              == Set(Set(Set(old(kwargs.entries), "id_list", ListObj(Consecutive(old(currentObjectId), nout))),
                         "fun", func), "tmp_dir", StrObj(tmpDir))
      ensures forall id :: id in IdRange(old(currentObjectId), nout) ==> id !in old(issued)
      ensures issued == old(issued) + IdRange(old(currentObjectId), nout)
    {
      newFunc := DiskWrapped;
      var idList := IssueIds(nout);
      newKwargs := kwargs;
      newKwargs.SetItem("id_list", ListObj(idList));
      newKwargs.SetItem("fun", func);
      newKwargs.SetItem("tmp_dir", StrObj(tmpDir));
    }

    /** The id loop of `get_function_and_kwargs`: `nout` fresh consecutive ids from the counter. */
    method IssueIds(nout: nat) returns (idList: seq<Obj>)
      requires Valid()
      modifies this
      ensures Valid() && tmpDir == old(tmpDir)
      ensures currentObjectId == old(currentObjectId) + nout
      ensures idList == Consecutive(old(currentObjectId), nout)
      ensures forall id :: id in IdRange(old(currentObjectId), nout) ==> id !in old(issued)
      ensures issued == old(issued) + IdRange(old(currentObjectId), nout)
    {
      idList := [];
      ghost var start := currentObjectId;
      var n := 0;
      while n < nout
        invariant 0 <= n <= nout
        invariant tmpDir == old(tmpDir)
        invariant currentObjectId == start + n
        invariant idList == Consecutive(start, n)
        invariant issued == old(issued) + IdRange(start, n)
        invariant forall id :: id in issued ==> 0 <= id < currentObjectId
      {
        assert IdRange(start, n + 1) == IdRange(start, n) + {currentObjectId};
        idList := idList + [IntObj(currentObjectId)];
        issued := issued + {currentObjectId};
        currentObjectId := currentObjectId + 1;
        n := n + 1;
      }
    }
  }

  /** Adding the three entries to a dict that has none of them appends them in order. */
  lemma WrapAppends(kwargs: Dict, ids: Obj, func: Obj, tmpDir: Obj)
    requires UniqueKeys(kwargs)
    requires "id_list" !in Keys(kwargs) && "fun" !in Keys(kwargs) && "tmp_dir" !in Keys(kwargs)
    ensures var wrapped := Set(Set(Set(kwargs, "id_list", ids), "fun", func), "tmp_dir", tmpDir);
            UniqueKeys(wrapped) && wrapped == kwargs + [("id_list", ids)] + [("fun", func)] + [("tmp_dir", tmpDir)]
  {
    TaskKeysDistinct();
    SetThreeNew(kwargs, "id_list", ids, "fun", func, "tmp_dir", tmpDir);
  }

  /**
   * What `WrapperDisk` adds is exactly what `disk_wrapper_fun` takes out: the task sees the
   * caller's own keyword arguments.
   */
  lemma UnwrapTaskInverse(kwargs: Dict, ids: Obj, func: Obj, tmpDir: Obj)
    requires UniqueKeys(kwargs)
    requires "id_list" !in Keys(kwargs) && "fun" !in Keys(kwargs) && "tmp_dir" !in Keys(kwargs)
    ensures var wrapped := Set(Set(Set(kwargs, "id_list", ids), "fun", func), "tmp_dir", tmpDir);
            UniqueKeys(wrapped) && UnwrapTask(wrapped) == Ok(TaskSetup(ids, func, tmpDir, kwargs))
  {
    WrapAppends(kwargs, ids, func, tmpDir);
    UnwrapAppended(kwargs, ids, func, tmpDir);
  }

  /** The three keys the disk wrapper adds are distinct. */
  lemma TaskKeysDistinct()
    ensures "id_list" != "fun" && "id_list" != "tmp_dir" && "fun" != "tmp_dir"
  {
    assert "id_list"[0] != "fun"[0] && "id_list"[0] != "tmp_dir"[0] && "fun"[0] != "tmp_dir"[0];
  }

  /** `disk_wrapper_fun` reads and removes the three entries when they come last. */
  lemma UnwrapAppended(kwargs: Dict, ids: Obj, func: Obj, tmpDir: Obj)
    requires "id_list" !in Keys(kwargs) && "fun" !in Keys(kwargs) && "tmp_dir" !in Keys(kwargs)
    ensures UnwrapTask(kwargs + [("id_list", ids)] + [("fun", func)] + [("tmp_dir", tmpDir)])
            == Ok(TaskSetup(ids, func, tmpDir, kwargs))
  {
    TaskKeysDistinct();
    GetThreeAppended(kwargs, "id_list", ids, "fun", func, "tmp_dir", tmpDir);
    PopThreeAppended(kwargs, "id_list", ids, "fun", func, "tmp_dir", tmpDir);
  }

  /** What `WrapperNone` adds is what `none_wrapper_fun` takes out: the call sees the caller's dict. */
  lemma NoneWrapperInverse(args: seq<Obj>, kwargs: Dict, func: Obj, call: Callee)
    requires UniqueKeys(kwargs) && "fun" !in Keys(kwargs)
    ensures UniqueKeys(Set(kwargs, "fun", func))
    ensures NoneWrapperFun(args, Set(kwargs, "fun", func), call) == call(func, args, kwargs)
  {
    SetNew(kwargs, "fun", func);
    SetUnique(kwargs, "fun", func);
    SetGet(kwargs, "fun", func, "fun");
    PopLast(kwargs, "fun", func);
  }
}
