/** JSON values (RFC 8259) as the application sees them after parsing
    (`serde_json::Value` in Rust, `json.loads` results in Python).

    Parsing and printing are not modelled: wherever the application parses
    text, the model takes the parser as a partial function parameter. */
module Json {
  import opened Wrappers

  datatype Json =
    | Null
    | Bool(b: bool)
    | Int(i: int)
    | Float(x: real)
    | Str(s: string)
    | Arr(items: seq<Json>)
    | Obj(fields: map<string, Json>)

  /** A JSON text parser: `Err` carries the syntax error message. */
  type Parser = string -> Result<Json>

  /** `value.get(key)` on an object; `None` on anything else. */
  function Get(j: Json, key: string): (r: Option<Json>)
    ensures r.Some? <==> j.Obj? && key in j.fields
  {
    if j.Obj? && key in j.fields then Some(j.fields[key]) else None
  }

  /** `value.as_str()`. */
  function AsStr(j: Json): (r: Option<string>)
    ensures r.Some? <==> j.Str?
  {
    if j.Str? then Some(j.s) else None
  }

  /** `value.get(key).and_then(as_str)`. */
  function GetStr(j: Json, key: string): (r: Option<string>)
    ensures r.Some? <==> (j.Obj? && key in j.fields && j.fields[key].Str?)
  {
    match Get(j, key)
    case Some(v) => AsStr(v)
    case None => None
  }

  predicate AllStrings(items: seq<Json>) {
    forall i :: 0 <= i < |items| ==> items[i].Str?
  }

  /** The texts of an array whose elements are all strings. */
  function Texts(items: seq<Json>): (r: seq<string>)
    requires AllStrings(items)
    ensures |r| == |items| && forall i :: 0 <= i < |items| ==> r[i] == items[i].s
  {
    if |items| == 0 then [] else [items[0].s] + Texts(items[1..])
  }

  /** `serde_json::from_value::<Vec<String>>`: succeeds only on an array of
      strings. */
  function AsStringArray(j: Json): (r: Option<seq<string>>)
    ensures r.Some? <==> (j.Arr? && AllStrings(j.items))
    ensures r.Some? ==> |r.value| == |j.items|
  {
    if j.Arr? && AllStrings(j.items) then Some(Texts(j.items)) else None
  }

  /** `iter().filter_map(|v| v.as_str())`: the string elements, in order. */
  function StringElements(items: seq<Json>): (r: seq<string>)
    ensures |r| <= |items|
    ensures forall i :: 0 <= i < |r| ==> Str(r[i]) in items
  {
    if |items| == 0 then []
    else if items[0].Str? then [items[0].s] + StringElements(items[1..])
    else StringElements(items[1..])
  }

  /** No string element is dropped. */
  lemma {:induction false} StringElementsKeep(items: seq<Json>)
    ensures forall i :: 0 <= i < |items| && items[i].Str? ==> items[i].s in StringElements(items)
  {
    if |items| > 0 {
      StringElementsKeep(items[1..]);
      assert forall i :: 1 <= i < |items| ==> items[i] == items[1..][i - 1];
    }
  }

  /** On an all-string array both readings agree. */
  lemma {:induction false} StringElementsOfStrings(items: seq<Json>)
    requires AllStrings(items)
    ensures StringElements(items) == Texts(items)
  {
    if |items| > 0 {
      StringElementsOfStrings(items[1..]);
    }
  }

  /** `value.as_array()`. */
  function AsArray(j: Json): (r: Option<seq<Json>>)
    ensures r.Some? <==> j.Arr?
  {
    if j.Arr? then Some(j.items) else None
  }

  function StrArray(xs: seq<string>): (r: Json)
    ensures r.Arr? && |r.items| == |xs| && AllStrings(r.items)
    ensures forall i :: 0 <= i < |xs| ==> r.items[i] == Str(xs[i])
  {
    Arr(seq(|xs|, i requires 0 <= i < |xs| => Str(xs[i])))
  }

  lemma {:induction false} StrArrayRoundTrip(xs: seq<string>)
    ensures AsStringArray(StrArray(xs)) == Some(xs)
  {
    var r := AsStringArray(StrArray(xs));
    assert |r.value| == |xs|;
    assert forall i :: 0 <= i < |xs| ==> r.value[i] == xs[i];
    assert r.value == xs;
  }

  /** JSON truthiness as Python's `not value` sees it: falsy values are
      None/null, False, 0, the empty string, list and object. */
  predicate Falsy(j: Json) {
    j.Null? || j == Bool(false) || j == Int(0) || j == Float(0.0)
    || j == Str([]) || j == Arr([]) || j == Obj(map[])
  }
}
