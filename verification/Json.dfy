/** JSON values as JavaScript holds them: objects are lists of own properties in enumeration
    order, strings are sequences of UTF-16 code units. */
module Json {
  import opened Basics
  import opened TextOrder

  type JsString = seq<int>

  datatype Field = Field(key: JsString, value: Json)

  datatype Json =
    | Null
    | Bool(b: bool)
    | Num(n: real)
    | Str(s: JsString)
    | Arr(items: seq<Json>)
    | Obj(fields: seq<Field>)

  function Js(s: string): JsString { Codes(s) }

  /** No key twice in one object. */
  predicate DistinctKeys(fs: seq<Field>) {
    forall i, j :: 0 <= i < j < |fs| ==> fs[i].key != fs[j].key
  }

  /** No key twice in any object, at any depth: what every JavaScript object satisfies. */
  ghost predicate WellFormed(v: Json)
    decreases v
  {
    match v
    case Arr(items) => forall i :: 0 <= i < |items| ==> WellFormed(items[i])
    case Obj(fields) =>
      && DistinctKeys(fields)
      && forall i :: 0 <= i < |fields| ==> (assert fields[i].value < fields[i]; WellFormed(fields[i].value))
    case _ => true
  }

  /** Property lookup; a missing property reads as undefined. */
  function Lookup(fs: seq<Field>, k: JsString): (r: Option<Json>)
    ensures r.Some? ==> Field(k, r.value) in fs
    ensures r.None? ==> forall f :: f in fs ==> f.key != k
  {
    if fs == [] then None
    else if fs[0].key == k then Some(fs[0].value)
    else
      assert fs == [fs[0]] + fs[1..];
      Lookup(fs[1..], k)
  }
}
