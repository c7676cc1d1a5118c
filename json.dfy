/**
 * The structure of a request body: only what the handler inspects (which keys
 * are present and what basic kind of value each holds) is modelled. Parsing
 * text into this structure belongs to the JSON library and is not modelled.
 */
module Json {
  import opened Wrappers

  datatype Json =
    | Null
    | Bool(b: bool)
    | Num(n: int)
    | Str(s: string)
    | Arr(items: seq<Json>)
    | Obj(fields: map<string, Json>)

  /** The value under `key` when `j` is an object that has that key. */
  function Member(j: Json, key: string): (r: Option<Json>)
    ensures r.Some? <==> j.Obj? && key in j.fields
    ensures r.Some? ==> r.value == j.fields[key]
  {
    if j.Obj? && key in j.fields then Some(j.fields[key]) else None
  }

  /** The nested object under `key`; a missing key or a non-object is refused. */
  function ObjectMember(j: Json, key: string): (r: Option<Json>)
    ensures r.Some? ==> r.value.Obj? && Member(j, key) == r
  {
    match Member(j, key)
    case Some(Obj(f)) => Some(Obj(f))
    case _ => None
  }

  function StringMember(j: Json, key: string): (r: Option<string>)
    ensures r.Some? <==> Member(j, key).Some? && Member(j, key).value.Str?
    ensures r.Some? ==> Member(j, key) == Some(Str(r.value))
  {
    match Member(j, key)
    case Some(Str(s)) => Some(s)
    case _ => None
  }

  function IntMember(j: Json, key: string): (r: Option<int>)
    ensures r.Some? <==> Member(j, key).Some? && Member(j, key).value.Num?
    ensures r.Some? ==> Member(j, key) == Some(Num(r.value))
  {
    match Member(j, key)
    case Some(Num(n)) => Some(n)
    case _ => None
  }

  function BoolMember(j: Json, key: string): (r: Option<bool>)
    ensures r.Some? <==> Member(j, key).Some? && Member(j, key).value.Bool?
    ensures r.Some? ==> Member(j, key) == Some(Bool(r.value))
  {
    match Member(j, key)
    case Some(Bool(b)) => Some(b)
    case _ => None
  }

  /** The numbers of an array, in order; an array holding anything else is refused. */
  function Numbers(items: seq<Json>): (r: Option<seq<int>>)
    ensures r.Some? <==> forall i :: 0 <= i < |items| ==> items[i].Num?
    ensures r.Some? ==> |r.value| == |items| && forall i :: 0 <= i < |items| ==> items[i] == Num(r.value[i])
  {
    if items == [] then Some([])
    else if !items[0].Num? then None
    else match Numbers(items[1..])
      case None => None
      case Some(rest) => Some([items[0].n] + rest)
  }

  function IntArrayMember(j: Json, key: string): (r: Option<seq<int>>)
    ensures r.Some? ==> Member(j, key).Some? && Member(j, key).value.Arr?
    ensures r.Some? ==> Numbers(Member(j, key).value.items) == r
  {
    match Member(j, key)
    case Some(Arr(items)) => Numbers(items)
    case _ => None
  }
}
