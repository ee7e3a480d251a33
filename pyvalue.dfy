/**
 * The Python values the modelled code passes around: configuration dicts, task arguments and
 * results, tiles of arrays (xarray datasets) and of points (pandas dataframes).
 * A dict is kept as its list of entries in insertion order, as Python keeps it.
 */
module PyValue {
  import opened Wrappers

  datatype Obj =
    | NoneObj
    | BoolObj(b: bool)
    | IntObj(i: int)
    | FloatObj(r: real)
    | StrObj(s: string)
    | ListObj(items: seq<Obj>)
    | TupleObj(elems: seq<Obj>)
    | DictObj(entries: seq<(string, Obj)>)
    | ArraysObj(arrays: seq<real>)      // an xarray.Dataset tile
    | PointsObj(points: seq<real>)      // a pandas.DataFrame tile
    | FuncObj(name: string)             // a callable, by name

  /** A dict with string keys, entries in insertion order. */
  type Dict = seq<(string, Obj)>

  function Keys(d: Dict): seq<string> {
    if |d| == 0 then [] else [d[0].0] + Keys(d[1..])
  }

  /** No key appears twice, as in any Python dict. */
  predicate UniqueKeys(d: Dict) {
    |d| == 0 || (d[0].0 !in Keys(d[1..]) && UniqueKeys(d[1..]))
  }

  /** `d[k]` when k is a key. */
  function Get(d: Dict, k: string): (r: Option<Obj>)
    ensures r.Some? <==> k in Keys(d)
  {
    if |d| == 0 then None
    else if d[0].0 == k then Some(d[0].1)
    else Get(d[1..], k)
  }

  /** `d.get(k, default)` */
  function GetOr(d: Dict, k: string, default: Obj): Obj {
    match Get(d, k)
    case Some(v) => v
    case None => default
  }

  /** `d[k] = v`: an existing key keeps its place, a new key goes last. */
  function Set(d: Dict, k: string, v: Obj): (r: Dict)
    ensures k in Keys(d) ==> Keys(r) == Keys(d)
    ensures k !in Keys(d) ==> Keys(r) == Keys(d) + [k]
  {
    if |d| == 0 then [(k, v)]
    else if d[0].0 == k then [(k, v)] + d[1..]
    else [d[0]] + Set(d[1..], k, v)
  }

  /** Setting a key keeps the keys already there, in their order, and adds the key if it is new. */
  lemma SetKeys(d: Dict, k: string, v: Obj)
    ensures Keys(d) <= Keys(Set(d, k, v)) && k in Keys(Set(d, k, v))
    ensures forall x :: x in Keys(d) ==> x in Keys(Set(d, k, v))
  {
  }

  /** Setting a key makes it read back the new value and leaves every other key alone. */
  lemma {:induction false} SetGet(d: Dict, k: string, v: Obj, k2: string)
    ensures Get(Set(d, k, v), k2) == if k2 == k then Some(v) else Get(d, k2)
  {
    if |d| > 0 && d[0].0 != k {
      SetGet(d[1..], k, v, k2);
      assert Set(d, k, v)[1..] == Set(d[1..], k, v);
    }
  }

  /** Setting a key keeps the keys unique. */
  lemma {:induction false} SetUnique(d: Dict, k: string, v: Obj)
    requires UniqueKeys(d)
    ensures UniqueKeys(Set(d, k, v))
  {
    if |d| > 0 && d[0].0 != k {
      SetUnique(d[1..], k, v);
      assert Set(d, k, v)[1..] == Set(d[1..], k, v);
    }
  }

  /** `d.pop(k)` without a default: the dict without k, or a KeyError. */
  function Pop(d: Dict, k: string): (r: Result<Dict>)
    ensures r.Ok? <==> k in Keys(d)
  {
    if |d| == 0 then Err(KeyError(k))
    else if d[0].0 == k then Ok(d[1..])
    else match Pop(d[1..], k)
      case Ok(rest) => Ok([d[0]] + rest)
      case Err(e) => Err(e)
  }

  /** Popping a key of a dict removes that key and keeps every other entry. */
  lemma {:induction false} PopGet(d: Dict, k: string, k2: string)
    requires UniqueKeys(d) && k in Keys(d)
    ensures UniqueKeys(Pop(d, k).value)
    ensures Get(Pop(d, k).value, k2) == if k2 == k then None else Get(d, k2)
  {
    if d[0].0 != k {
      PopGet(d[1..], k, k2);
      PopGet(d[1..], k, d[0].0);
      var rest := Pop(d[1..], k).value;
      assert Pop(d, k).value == [d[0]] + rest;
      assert ([d[0]] + rest)[1..] == rest;
    }
  }

  lemma {:induction false} KeysAt(d: Dict)
    ensures |Keys(d)| == |d|
    ensures forall j :: 0 <= j < |d| ==> Keys(d)[j] == d[j].0
  {
    if |d| > 0 {
      KeysAt(d[1..]);
    }
  }

  lemma {:induction false} KeysAppend(a: Dict, b: Dict)
    ensures Keys(a + b) == Keys(a) + Keys(b)
  {
    if |a| > 0 {
      KeysAppend(a[1..], b);
      assert (a + b)[1..] == a[1..] + b;
    } else {
      assert a + b == b;
    }
  }

  /** Setting a new key appends its entry. */
  lemma {:induction false} SetNew(d: Dict, k: string, v: Obj)
    requires k !in Keys(d)
    ensures Set(d, k, v) == d + [(k, v)]
  {
    if |d| > 0 {
      SetNew(d[1..], k, v);
      assert d == [d[0]] + d[1..];
    }
  }

  /** Setting a new key of a dict appends its entry and keeps the keys unique. */
  lemma SetNewUnique(d: Dict, k: string, v: Obj)
    requires UniqueKeys(d) && k !in Keys(d)
    ensures Set(d, k, v) == d + [(k, v)]
    ensures UniqueKeys(d + [(k, v)]) && Keys(d + [(k, v)]) == Keys(d) + [k]
  {
    SetNew(d, k, v);
    SetUnique(d, k, v);
  }

  /** In a dict, no entry's key occurs among the entries before it. */
  lemma {:induction false} UniqueKeyNotBefore(d: Dict, i: int)
    requires UniqueKeys(d) && 0 <= i < |d|
    ensures d[i].0 !in Keys(d[..i])
  {
    if i > 0 {
      UniqueKeyNotBefore(d[1..], i - 1);
      KeysAt(d[1..]);
      assert d[i].0 == Keys(d[1..])[i - 1];
      assert d[..i] == [d[0]] + d[1..][..i - 1];
    }
  }

  /** A key of x is read from x in x + y; any other key is read from y. */
  lemma {:induction false} GetConcat(x: Dict, y: Dict, k: string)
    ensures Get(x + y, k) == if k in Keys(x) then Get(x, k) else Get(y, k)
  {
    if |x| == 0 {
      assert x + y == y;
    } else {
      GetConcat(x[1..], y, k);
      assert (x + y)[0] == x[0] && (x + y)[1..] == x[1..] + y;
    }
  }

  /** Popping a key of x from x + y pops it from x and keeps y. */
  lemma {:induction false} PopConcat(x: Dict, y: Dict, k: string)
    requires k in Keys(x)
    ensures Pop(x + y, k) == Ok(Pop(x, k).value + y)
  {
    assert (x + y)[0] == x[0] && (x + y)[1..] == x[1..] + y;
    if x[0].0 != k {
      PopConcat(x[1..], y, k);
      assert [x[0]] + (Pop(x[1..], k).value + y) == [x[0]] + Pop(x[1..], k).value + y;
    }
  }

  /** Popping a new key that was appended last gives the dict back. */
  lemma {:induction false} PopLast(d: Dict, k: string, v: Obj)
    requires k !in Keys(d)
    ensures Pop(d + [(k, v)], k) == Ok(d)
  {
    var w := d + [(k, v)];
    if |d| == 0 {
      assert w[0] == (k, v) && w[1..] == [];
    } else {
      assert k != d[0].0 && k !in Keys(d[1..]);
      PopLast(d[1..], k, v);
      assert w[0] == d[0] && w[1..] == d[1..] + [(k, v)];
      assert d == [d[0]] + d[1..];
    }
  }

  /** Pairwise distinct keys, the form in which a literal dict is easiest to check. */
  predicate DistinctKeys(d: Dict) {
    forall i, j :: 0 <= i < j < |d| ==> d[i].0 != d[j].0
  }

  lemma {:induction false} DistinctKeysUnique(d: Dict)
    requires DistinctKeys(d)
    ensures UniqueKeys(d)
  {
    if |d| > 0 {
      KeysAt(d[1..]);
      DistinctKeysUnique(d[1..]);
    }
  }

  /** Unique keys are pairwise distinct. */
  lemma {:induction false} UniqueKeysDistinct(d: Dict)
    requires UniqueKeys(d)
    ensures DistinctKeys(d)
  {
    if |d| > 0 {
      UniqueKeysDistinct(d[1..]);
      KeysAt(d[1..]);
      forall i, j | 0 <= i < j < |d|
        ensures d[i].0 != d[j].0
      {
        if i == 0 {
          assert d[j].0 == Keys(d[1..])[j - 1];
        } else {
          assert d[i].0 == d[1..][i - 1].0 && d[j].0 == d[1..][j - 1].0;
        }
      }
    }
  }

  /** The first n entries of a dict form a dict. */
  lemma PrefixUnique(d: Dict, n: int)
    requires UniqueKeys(d) && 0 <= n <= |d|
    ensures UniqueKeys(d[..n])
  {
    UniqueKeysDistinct(d);
    assert DistinctKeys(d[..n]);
    DistinctKeysUnique(d[..n]);
  }

  /** In a dict, each entry's key reads back that entry's value. */
  lemma {:induction false} GetAt(d: Dict, i: int)
    requires UniqueKeys(d) && 0 <= i < |d|
    ensures Get(d, d[i].0) == Some(d[i].1)
  {
    if i > 0 {
      GetAt(d[1..], i - 1);
      KeysAt(d[1..]);
      assert d[i].0 == Keys(d[1..])[i - 1];
    }
  }

  /** Three new, distinct keys set in turn are appended in that order. */
  lemma SetThreeNew(d: Dict, k1: string, v1: Obj, k2: string, v2: Obj, k3: string, v3: Obj)
    requires UniqueKeys(d) && k1 !in Keys(d) && k2 !in Keys(d) && k3 !in Keys(d)
    requires k1 != k2 && k1 != k3 && k2 != k3
    ensures var r := Set(Set(Set(d, k1, v1), k2, v2), k3, v3);
            r == d + [(k1, v1)] + [(k2, v2)] + [(k3, v3)] && UniqueKeys(r)
  {
    SetNewUnique(d, k1, v1);
    var d1 := d + [(k1, v1)];
    SetNewUnique(d1, k2, v2);
    var d2 := d1 + [(k2, v2)];
    SetNewUnique(d2, k3, v3);
  }

  /** Three distinct keys appended last, in turn, read back their values. */
  lemma GetThreeAppended(d: Dict, k1: string, v1: Obj, k2: string, v2: Obj, k3: string, v3: Obj)
    requires k1 !in Keys(d) && k2 !in Keys(d) && k3 !in Keys(d)
    requires k1 != k2 && k1 != k3 && k2 != k3
    ensures var w := d + [(k1, v1)] + [(k2, v2)] + [(k3, v3)];
            Get(w, k1) == Some(v1) && Get(w, k2) == Some(v2) && Get(w, k3) == Some(v3)
  {
    var d1 := d + [(k1, v1)];
    var d2 := d1 + [(k2, v2)];
    KeysAppend(d, [(k1, v1)]);
    KeysAppend(d1, [(k2, v2)]);
    assert Get(d2 + [(k3, v3)], k1) == Some(v1) by {
      GetConcat(d2, [(k3, v3)], k1);
      GetConcat(d1, [(k2, v2)], k1);
      GetConcat(d, [(k1, v1)], k1);
    }
    assert Get(d2 + [(k3, v3)], k2) == Some(v2) by {
      GetConcat(d2, [(k3, v3)], k2);
      GetConcat(d1, [(k2, v2)], k2);
    }
    assert Get(d2 + [(k3, v3)], k3) == Some(v3) by {
      GetConcat(d2, [(k3, v3)], k3);
    }
  }

  /** Popping three keys appended last, in the order they were appended, gives back the dict. */
  lemma PopThreeAppended(d: Dict, k1: string, v1: Obj, k2: string, v2: Obj, k3: string, v3: Obj)
    requires k1 !in Keys(d) && k2 !in Keys(d) && k3 !in Keys(d)
    ensures Pop(d + [(k1, v1)] + [(k2, v2)] + [(k3, v3)], k1) == Ok(d + [(k2, v2)] + [(k3, v3)])
    ensures Pop(d + [(k2, v2)] + [(k3, v3)], k2) == Ok(d + [(k3, v3)])
    ensures Pop(d + [(k3, v3)], k3) == Ok(d)
  {
    var d1 := d + [(k1, v1)];
    KeysAppend(d, [(k1, v1)]);
    KeysAppend(d1, [(k2, v2)]);
    KeysAppend(d, [(k2, v2)]);
    assert Pop(d1 + [(k2, v2)] + [(k3, v3)], k1) == Ok(d + [(k2, v2)] + [(k3, v3)]) by {
      PopConcat(d1 + [(k2, v2)], [(k3, v3)], k1);
      PopConcat(d1, [(k2, v2)], k1);
      PopLast(d, k1, v1);
    }
    assert Pop(d + [(k2, v2)] + [(k3, v3)], k2) == Ok(d + [(k3, v3)]) by {
      PopConcat(d + [(k2, v2)], [(k3, v3)], k2);
      PopLast(d, k2, v2);
    }
    PopLast(d, k3, v3);
  }

  /** A configuration is falsy when it is None or an empty dict. */
  predicate IsFalsy(conf: Option<Dict>) {
    conf.None? || |conf.value| == 0
  }

  /**
   * The default-filling done by every `check_conf`: start from a copy of conf (or an empty dict
   * for None) and, key by key, set each default key to conf's value if conf has one, otherwise
   * to its default.
   */
  function Overload(conf: Option<Dict>, defaults: Dict): (r: Dict)
    ensures conf.Some? ==> Keys(conf.value) <= Keys(r)
    ensures forall k :: k in Keys(defaults) ==> k in Keys(r)
  {
    var original := if conf.Some? then conf.value else [];
    OverloadFrom(original, original, defaults)
  }

  function OverloadFrom(acc: Dict, original: Dict, defaults: Dict): (r: Dict)
    ensures Keys(acc) <= Keys(r)
    ensures forall k :: k in Keys(defaults) ==> k in Keys(r)
    decreases |defaults|
  {
    if |defaults| == 0 then acc
    else
      var k := defaults[0].0;
      var acc' := Set(acc, k, GetOr(original, k, defaults[0].1));
      var r := OverloadFrom(acc', original, defaults[1..]);
      assert Keys(defaults) == [k] + Keys(defaults[1..]);
      assert k in Keys(r) by {
        var j :| 0 <= j < |Keys(acc')| && Keys(acc')[j] == k;
        assert Keys(r)[j] == k;
      }
      r
  }

  lemma {:induction false} OverloadFromGet(acc: Dict, original: Dict, defaults: Dict, k: string)
    requires UniqueKeys(defaults)
    ensures Get(OverloadFrom(acc, original, defaults), k)
            == if k in Keys(defaults) then Some(GetOr(original, k, GetOr(defaults, k, NoneObj))) else Get(acc, k)
    decreases |defaults|
  {
    if |defaults| > 0 {
      var k0 := defaults[0].0;
      var acc' := Set(acc, k0, GetOr(original, k0, defaults[0].1));
      OverloadFromGet(acc', original, defaults[1..], k);
      SetGet(acc, k0, GetOr(original, k0, defaults[0].1), k);
      assert Keys(defaults) == [k0] + Keys(defaults[1..]);
    }
  }

  /**
   * After `check_conf`, a default key holds conf's value when conf has the key and the default
   * otherwise; any other key of conf is kept as it was.
   */
  lemma OverloadGet(conf: Option<Dict>, defaults: Dict, k: string)
    requires UniqueKeys(defaults)
    ensures var original := if conf.Some? then conf.value else [];
            Get(Overload(conf, defaults), k)
            == if k in Keys(defaults) then Some(GetOr(original, k, GetOr(defaults, k, NoneObj)))
               else Get(original, k)
  {
    var original := if conf.Some? then conf.value else [];
    OverloadFromGet(original, original, defaults, k);
  }

  lemma {:induction false} OverloadFromKeys(acc: Dict, original: Dict, defaults: Dict, k: string)
    ensures k in Keys(OverloadFrom(acc, original, defaults)) <==> k in Keys(acc) || k in Keys(defaults)
    decreases |defaults|
  {
    if |defaults| > 0 {
      var k0 := defaults[0].0;
      OverloadFromKeys(Set(acc, k0, GetOr(original, k0, defaults[0].1)), original, defaults[1..], k);
      assert Keys(defaults) == [k0] + Keys(defaults[1..]);
    }
  }

  /** Setting one more key after the defaulting keeps conf's keys first and every default key. */
  lemma OverloadThenSet(conf: Option<Dict>, defaults: Dict, k: string, v: Obj)
    ensures var r := Set(Overload(conf, defaults), k, v);
            (conf.Some? ==> Keys(conf.value) <= Keys(r))
            && (forall x :: x in Keys(defaults) ==> x in Keys(r))
            && k in Keys(r)
  {
    SetKeys(Overload(conf, defaults), k, v);
  }

  /** Filling the defaults of an already filled configuration reads back the same values. */
  lemma OverloadIdempotent(conf: Option<Dict>, defaults: Dict, k: string)
    requires UniqueKeys(defaults)
    ensures Get(Overload(Some(Overload(conf, defaults)), defaults), k) == Get(Overload(conf, defaults), k)
  {
    var once := Overload(conf, defaults);
    OverloadGet(Some(once), defaults, k);
    OverloadGet(conf, defaults, k);
  }

  /** A default key that conf does not set reads back its default. */
  lemma OverloadDefaultAt(conf: Option<Dict>, defaults: Dict, i: int)
    requires UniqueKeys(defaults) && 0 <= i < |defaults|
    requires conf.Some? ==> defaults[i].0 !in Keys(conf.value)
    ensures Get(Overload(conf, defaults), defaults[i].0) == Some(defaults[i].1)
  {
    KeysAt(defaults);
    GetAt(defaults, i);
    OverloadGet(conf, defaults, defaults[i].0);
  }

  /** A key that conf sets keeps conf's value, default or not. */
  lemma OverloadKeepsGiven(conf: Dict, defaults: Dict, k: string)
    requires UniqueKeys(defaults) && k in Keys(conf)
    ensures Get(Overload(Some(conf), defaults), k) == Get(conf, k)
  {
    OverloadGet(Some(conf), defaults, k);
  }
}
