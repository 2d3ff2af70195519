/**
 * JSON values as `json.load` produces them. Objects are member lists in insertion order,
 * as Python dictionaries are; numbers are integers.
 */
module Json {
  import opened Wrappers

  datatype Json =
    | JNull
    | JBool(b: bool)
    | JNumber(n: int)
    | JString(s: string)
    | JArray(items: seq<Json>)
    | JObject(members: seq<Member>)

  datatype Member = Member(key: string, value: Json)

  function Keys(members: seq<Member>): (keys: seq<string>)
    ensures |keys| == |members|
    ensures forall i :: 0 <= i < |members| ==> keys[i] == members[i].key
  {
    if members == [] then [] else [members[0].key] + Keys(members[1..])
  }

  /** `key in d`. */
  predicate HasKey(members: seq<Member>, key: string) {
    key in Keys(members)
  }

  /** `d.get(key)`: the value stored under `key`, if any. */
  function Get(members: seq<Member>, key: string): (v: Option<Json>)
    ensures v.None? <==> !HasKey(members, key)
  {
    if members == [] then None
    else if members[0].key == key then Some(members[0].value)
    else Get(members[1..], key)
  }

  /**
   * `d[key] = value`: an existing key keeps its position and takes the new value,
   * a new key is appended at the end.
   */
  function Put(members: seq<Member>, key: string, value: Json): (r: seq<Member>)
    ensures Get(r, key) == Some(value)
    ensures HasKey(members, key) ==> Keys(r) == Keys(members)
    ensures !HasKey(members, key) ==> Keys(r) == Keys(members) + [key]
  {
    if members == [] then [Member(key, value)]
    else if members[0].key == key then
      var r := [Member(key, value)] + members[1..];
      assert r[1..] == members[1..];
      r
    else
      var rest := Put(members[1..], key, value);
      var r := [members[0]] + rest;
      assert r[0] == members[0] && r[1..] == rest;
      assert Keys(r) == [members[0].key] + Keys(rest);
      assert HasKey(members, key) <==> HasKey(members[1..], key);
      r
  }

  /** `d[key] = value` leaves every other key's value alone. */
  lemma {:induction false} GetPutOther(members: seq<Member>, key: string, value: Json, other: string)
    requires other != key
    ensures Get(Put(members, key, value), other) == Get(members, other)
  {
    if members != [] && members[0].key != key {
      GetPutOther(members[1..], key, value, other);
    }
  }

  /** `config.json` as `json.load` finds it: absent, not valid JSON, or a decoded object. */
  datatype ConfigFile = Missing | Malformed | Parsed(doc: seq<Member>)

  /** Python's truth value of a decoded JSON value. */
  predicate Truthy(v: Json) {
    match v
    case JNull => false
    case JBool(b) => b
    case JNumber(n) => n != 0
    case JString(s) => s != []
    case JArray(items) => items != []
    case JObject(members) => members != []
  }
}
