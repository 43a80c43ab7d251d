/** The JSON values the server exchanges: request bodies, catalog records and `to_dict` results. */
module Json {
  import opened Wrappers

  datatype Value =
    | Null
    | Bool(b: bool)
    | Int(i: int)
    | Real(r: real)
    | Str(s: string)
    | Arr(items: seq<Value>)
    | Obj(fields: map<string, Value>)

  /** A Python `dict` with string keys. */
  type Dict = map<string, Value>

  /** `d.get(key, default)`. */
  function Get(d: Dict, key: string, default: Value): (v: Value)
    ensures key in d ==> v == d[key]
    ensures key !in d ==> v == default
  {
    if key in d then d[key] else default
  }

  /** A Python list of strings as a JSON array. */
  function StrArr(ss: seq<string>): (v: Value)
    ensures v.Arr? && |v.items| == |ss|
    ensures forall k :: 0 <= k < |ss| ==> v.items[k] == Str(ss[k])
  {
    Arr(seq(|ss|, k requires 0 <= k < |ss| => Str(ss[k])))
  }

  /** The strings of a JSON array made only of strings. */
  function AsStrings(v: Value): (r: Option<seq<string>>)
    ensures r.Some? <==> v.Arr? && forall k :: 0 <= k < |v.items| ==> v.items[k].Str?
    ensures r.Some? ==> |r.value| == |v.items|
    ensures r.Some? ==> forall k :: 0 <= k < |v.items| ==> v.items[k] == Str(r.value[k])
  {
    if v.Arr? && forall k :: 0 <= k < |v.items| ==> v.items[k].Str? then
      Some(seq(|v.items|, k requires 0 <= k < |v.items| => v.items[k].s))
    else None
  }

  lemma StrArrAsStrings(ss: seq<string>)
    ensures AsStrings(StrArr(ss)) == Some(ss)
  {
    var r := AsStrings(StrArr(ss));
    assert r.Some?;
    assert r.value == ss;
  }

  /** `Optional[str]` as JSON: `None` becomes `null`. */
  function OptStr(o: Option<string>): (v: Value)
    ensures o.None? <==> v == Null
    ensures o.Some? ==> v == Str(o.value)
  {
    if o.Some? then Str(o.value) else Null
  }

  /**
   * Why reading a field of a record failed: `data[key]` raised `KeyError`, or
   * the value is not of the type the dataclass field declares.
   */
  datatype FieldError = MissingKey(key: string) | WrongType(key: string)

  /** `data[key]` for a `str` field. */
  function StrField(d: Dict, key: string): (r: Result<string, FieldError>)
    ensures key !in d ==> r == Err(MissingKey(key))
    ensures key in d ==> (r.Ok? <==> d[key].Str?)
    ensures r.Ok? ==> d[key] == Str(r.value)
    ensures r.Err? ==> r.error.key == key
  {
    if key !in d then Err(MissingKey(key))
    else if d[key].Str? then Ok(d[key].s)
    else Err(WrongType(key))
  }

  /** `data.get(key)` for an `Optional[str]` field: absent or `null` gives `None`. */
  function OptStrField(d: Dict, key: string): (r: Result<Option<string>, FieldError>)
    ensures key !in d ==> r == Ok(None)
    ensures r.Ok? <==> key !in d || d[key] == Null || d[key].Str?
    ensures r.Ok? && key in d ==> d[key] == OptStr(r.value)
    ensures r.Err? ==> r.error == WrongType(key)
  {
    if key !in d || d[key] == Null then Ok(None)
    else if d[key].Str? then Ok(Some(d[key].s))
    else Err(WrongType(key))
  }

  /** `data[key]` for an `int` field. */
  function IntField(d: Dict, key: string): (r: Result<int, FieldError>)
    ensures key !in d ==> r == Err(MissingKey(key))
    ensures key in d ==> (r.Ok? <==> d[key].Int?)
    ensures r.Ok? ==> d[key] == Int(r.value)
    ensures r.Err? ==> r.error.key == key
  {
    if key !in d then Err(MissingKey(key))
    else if d[key].Int? then Ok(d[key].i)
    else Err(WrongType(key))
  }

  /** `data.get(key, default)` for a `float` field: a JSON integer is accepted as a number. */
  function RealField(d: Dict, key: string, default: real): (r: Result<real, FieldError>)
    ensures key !in d ==> r == Ok(default)
    ensures r.Ok? <==> key !in d || d[key].Real? || d[key].Int?
    ensures key in d && d[key].Real? ==> r == Ok(d[key].r)
    ensures key in d && d[key].Int? ==> r == Ok(d[key].i as real)
    ensures r.Err? ==> r.error == WrongType(key)
  {
    if key !in d then Ok(default)
    else if d[key].Real? then Ok(d[key].r)
    else if d[key].Int? then Ok(d[key].i as real)
    else Err(WrongType(key))
  }

  /** `data[key]` for a `List[str]` field. */
  function StrListField(d: Dict, key: string): (r: Result<seq<string>, FieldError>)
    ensures key !in d ==> r == Err(MissingKey(key))
    ensures key in d ==> (r.Ok? <==> AsStrings(d[key]).Some?)
    ensures r.Ok? ==> d[key] == StrArr(r.value)
    ensures r.Err? ==> r.error.key == key
  {
    if key !in d then Err(MissingKey(key))
    else
      var l := AsStrings(d[key]);
      if l.Some? then
        assert d[key] == StrArr(l.value) by {
          assert d[key].items == StrArr(l.value).items;
        }
        Ok(l.value)
      else Err(WrongType(key))
  }

  /**
   * `data.get(key, [])` for a `List[str]` field that may also be `None`:
   * absent gives `[]`, `null` gives `None`.
   */
  function OptStrListField(d: Dict, key: string): (r: Result<Option<seq<string>>, FieldError>)
    ensures key !in d ==> r == Ok(Some([]))
    ensures key in d && d[key] == Null ==> r == Ok(None)
    ensures key in d && d[key] != Null ==> (r.Ok? <==> AsStrings(d[key]).Some?)
    ensures r.Ok? && r.value.Some? && key in d ==> d[key] == StrArr(r.value.value)
    ensures r.Err? ==> r.error == WrongType(key)
  {
    if key !in d then Ok(Some([]))
    else if d[key] == Null then Ok(None)
    else
      match StrListField(d, key)
      case Ok(l) => Ok(Some(l))
      case Err(e) => Err(e)
  }
}
