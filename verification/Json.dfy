/** The JSON values of native/vendor/yyjson.h as native/scu_mcp.h uses them: members keep their order, may repeat a key,
    and a lookup takes the first. Keys and strings are C strings with a length, so they may hold a NUL. */
module Json {
  import opened Text

  datatype Json =
    | Null
    | Bool(b: bool)
    | Int(i: int)
    | Real(r: real)
    | Str(s: string)
    | Arr(items: seq<Json>)
    | Obj(members: seq<(string, Json)>)

  const NUL := '\0'

  /** What a C string function sees. */
  function CString(s: string): (c: string)
    ensures NUL !in c && c <= s
    ensures c == s || s[|c|] == NUL
    ensures NUL !in s ==> c == s
  {
    if s == [] || s[0] == NUL then []
    else
      assert s == [s[0]] + s[1..];
      [s[0]] + CString(s[1..])
  }

  function Find(members: seq<(string, Json)>, key: string): Option<Json> {
    if members == [] then None
    else if members[0].0 == key then Some(members[0].1)
    else Find(members[1..], key)
  }

  /** What is found is the value of the first member with that key. */
  lemma Found(members: seq<(string, Json)>, key: string) returns (k: nat)
    requires Find(members, key).Some?
    ensures k < |members| && members[k] == (key, Find(members, key).value)
    ensures forall j :: 0 <= j < k ==> members[j].0 != key
  {
    if members[0].0 == key {
      k := 0;
    } else {
      k := Found(members[1..], key);
      k := k + 1;
    }
  }

  lemma NotFound(members: seq<(string, Json)>, key: string)
    ensures Find(members, key).None? <==> forall k :: 0 <= k < |members| ==> members[k].0 != key
  {
    if members != [] {
      NotFound(members[1..], key);
      assert forall k :: 0 < k < |members| ==> members[k] == members[1..][k - 1];
    }
  }

  lemma FindSmaller(members: seq<(string, Json)>, key: string)
    requires Find(members, key).Some?
    ensures Find(members, key).value < Obj(members)
  {
    var k := Found(members, key);
    assert members[k].1 == Find(members, key).value;
  }

  /** yyjson_mut_obj_put */
  function Put(members: seq<(string, Json)>, key: string, value: Json): (all: seq<(string, Json)>)
    ensures forall k :: Find(all, k) == if k == key then Some(value) else Find(members, k)
  {
    if members == [] then [(key, value)]
    else if members[0].0 == key then
      var all := [(key, value)] + members[1..];
      assert all[1..] == members[1..];
      all
    else
      var rest := Put(members[1..], key, value);
      var all := [members[0]] + rest;
      assert all[1..] == rest;
      all
  }

  /** json_member: nothing is found in what is not an object. */
  function Member(json: Json, key: string): (found: Option<Json>)
    ensures found.Some? ==> json.Obj? && found.value < json
  {
    if json.Obj? then
      assert Find(json.members, key).Some? ==> Find(json.members, key).value < json by {
        if Find(json.members, key).Some? {
          FindSmaller(json.members, key);
        }
      }
      Find(json.members, key)
    else None
  }

  function Numeric(json: Json): Option<real> {
    match json
    case Int(i) => Some(i as real)
    case Real(r) => Some(r)
    case _ => None
  }

  /** json_number */
  function NumberMember(json: Json, key: string, fallback: real): (n: real)
    ensures Member(json, key).Some? && Numeric(Member(json, key).value).Some? ==>
      n == Numeric(Member(json, key).value).value
    ensures Member(json, key).None? || Numeric(Member(json, key).value).None? ==> n == fallback
  {
    match Member(json, key)
    case Some(value) => (match Numeric(value) case Some(n) => n case None => fallback)
    case None => fallback
  }
}
