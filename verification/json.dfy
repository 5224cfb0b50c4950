/** The JSON-shaped values (Python `dict`, `list`, `str`, numbers, `bool`,
    `None`) that the validators and serialisers inspect or build. */
module Json {
  import opened Wrappers

  /** A Python value decoded from JSON. An object keeps its keys in
      insertion order (`keys`) beside the key-to-value map (`fields`). */
  datatype Json =
    | JNull
    | JBool(b: bool)
    | JInt(i: int)
    | JFloat(f: real)
    | JStr(s: string)
    | JArr(items: seq<Json>)
    | JObj(keys: seq<string>, fields: map<string, Json>)
  {
    /** Python truthiness: `None`, `False`, zero, `""`, `[]` and `{}` are false. */
    predicate Truthy() {
      match this
      case JNull => false
      case JBool(b) => b
      case JInt(i) => i != 0
      case JFloat(f) => f != 0.0
      case JStr(s) => s != ""
      case JArr(items) => items != []
      case JObj(_, fields) => fields != map[]
    }

    /** A dict's key list holds each key of the map once. */
    ghost predicate WellFormed() {
      JObj? ==>
        (forall i, j :: 0 <= i < j < |keys| ==> keys[i] != keys[j])
        && (forall k :: k in fields <==> k in keys)
    }

    /** `d.get(key)` on a dict; `None` when the key is absent. */
    function Get(key: string): (r: Option<Json>)
      requires JObj?
      ensures r.Some? <==> key in fields
      ensures r.Some? ==> r.value == fields[key]
    {
      if key in fields then Some(fields[key]) else None
    }

    /** `isinstance(v, list) and all(isinstance(x, str) for x in v)` */
    predicate IsStrList() {
      JArr? && forall i :: 0 <= i < |items| ==> items[i].JStr?
    }

    /** The strings of a list of strings. */
    function Strings(): (r: seq<string>)
      requires IsStrList()
      ensures |r| == |items|
      ensures forall i :: 0 <= i < |r| ==> items[i] == JStr(r[i])
    {
      seq(|items|, i requires 0 <= i < |items| => items[i].s)
    }
  }

  /** A JSON list of strings. */
  function StrList(ss: seq<string>): (j: Json)
    ensures j.IsStrList() && j.Strings() == ss
  {
    JArr(seq(|ss|, i requires 0 <= i < |ss| => JStr(ss[i])))
  }
}
