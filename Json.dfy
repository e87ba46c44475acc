/** The shape of a JSON document after deserialisation: MiniJSON turns
    objects into `Dictionary<string, object>`, arrays into
    `List<object>`, integers into `long`, other numbers into `double`. */
module Json {
  import opened Options
  import opened Numeric

  datatype Json =
    | JNull
    | JBool(b: bool)
    | JInt(i: int64)
    | JFloat(f: real)
    | JString(s: string)
    | JArray(items: seq<Json>)
    | JObject(members: seq<(string, Json)>)

  /** The value stored under `key` (the first member with that name). */
  function Get(members: seq<(string, Json)>, key: string): Option<Json> {
    if members == [] then None
    else if members[0].0 == key then Some(members[0].1)
    else Get(members[1..], key)
  }

  /** `Get` finds a member exactly when one has that name, and what it
      finds is stored under that name. */
  lemma {:induction false} GetFinds(members: seq<(string, Json)>, key: string)
    ensures Get(members, key).None? <==> forall i :: 0 <= i < |members| ==> members[i].0 != key
    ensures Get(members, key).Some? ==> exists i :: 0 <= i < |members| && members[i] == (key, Get(members, key).value)
  {
    if members != [] && members[0].0 != key {
      var r := Get(members[1..], key);
      GetFinds(members[1..], key);
      assert forall i :: 1 <= i < |members| ==> members[i] == members[1..][i - 1];
      if r.Some? {
        var i :| 0 <= i < |members[1..]| && members[1..][i] == (key, r.value);
        assert members[i + 1] == (key, r.value);
      }
    }
  }
}
