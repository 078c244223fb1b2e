/** A structured JSON value as held by `serde_json::Value`.
    Objects are ordered association lists: the order of the members is the
    order in which the value's map iterates them. A `serde_json::Map` never
    holds two members with the same key; an `Obj` here may, and for such
    objects, which no source value matches, the first member wins. */
module Json {

  import opened Wrappers

  datatype Value =
    | Null
    | Bool(b: bool)
    | Num(n: real)
    | Str(s: string)
    | Arr(items: seq<Value>)
    | Obj(members: seq<(string, Value)>)

  /** No two members share a key, as in every `serde_json::Map`. */
  predicate DistinctKeys(members: seq<(string, Value)>)
  {
    forall i, j :: 0 <= i < j < |members| ==> members[i].0 != members[j].0
  }

  /** The value of the first member named `key`, as `Map::get` on an object. */
  function Lookup(members: seq<(string, Value)>, key: string): (r: Option<Value>)
    ensures r.None? <==> forall i :: 0 <= i < |members| ==> members[i].0 != key
    ensures r.Some? ==> exists i :: 0 <= i < |members| && members[i] == (key, r.value)
                                    && forall j :: 0 <= j < i ==> members[j].0 != key
  {
    if |members| == 0 then None
    else if members[0].0 == key then Some(members[0].1)
    else
      var r := Lookup(members[1..], key);
      assert r.Some? ==> exists i :: 0 <= i < |members[1..]| && members[1..][i] == (key, r.value)
                                     && forall j :: 0 <= j < i ==> members[1..][j].0 != key;
      r
  }

  /** On a map's distinct keys, looking up a member's key finds that member. */
  lemma LookupDistinct(members: seq<(string, Value)>, i: nat)
    requires DistinctKeys(members) && i < |members|
    ensures Lookup(members, members[i].0) == Some(members[i].1)
  {
    var r := Lookup(members, members[i].0);
    var k :| 0 <= k < |members| && members[k] == (members[i].0, r.value)
                 && forall j :: 0 <= j < k ==> members[j].0 != members[i].0;
    assert k == i;
  }

  /** `Value::get` with a string index: a member of an object, nothing otherwise. */
  function Get(v: Value, key: string): (r: Option<Value>)
    ensures !v.Obj? ==> r.None?
    ensures v.Obj? ==> r == Lookup(v.members, key)
  {
    match v
    case Obj(members) => Lookup(members, key)
    case _ => None
  }

  /** `Value::as_str`. */
  function AsStr(v: Value): (r: Option<string>)
    ensures r.Some? <==> v.Str?
    ensures r.Some? ==> r.value == v.s
  {
    match v
    case Str(s) => Some(s)
    case _ => None
  }

  /** `Value::as_object`. */
  function AsObject(v: Value): (r: Option<seq<(string, Value)>>)
    ensures r.Some? <==> v.Obj?
    ensures r.Some? ==> r.value == v.members
  {
    match v
    case Obj(members) => Some(members)
    case _ => None
  }

  /** `get(key).and_then(as_str)`: the member `key` when it is a string. */
  function GetStr(v: Value, key: string): (r: Option<string>)
    ensures r.Some? <==> Get(v, key).Some? && Get(v, key).value.Str?
    ensures r.Some? ==> r.value == Get(v, key).value.s
  {
    match Get(v, key)
    case Some(x) => AsStr(x)
    case None => None
  }
}
