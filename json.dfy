/** The part of a fastjson value that the dialog store and its reader use. */
module Json {
  import opened Wrappers

  /** A JSON value. An object keeps its fields in insertion order, duplicates allowed. */
  datatype Json =
    | Null
    | Bool(b: bool)
    | Number(n: int)
    | Str(s: string)
    | Array(items: seq<Json>)
    | Object(fields: seq<(string, Json)>)

  /** The keys an object's fields carry. */
  function Keys(fields: seq<(string, Json)>): set<string> {
    set i | 0 <= i < |fields| :: fields[i].0
  }

  lemma KeysCons(field: (string, Json), rest: seq<(string, Json)>)
    ensures Keys([field] + rest) == {field.0} + Keys(rest)
  {
    var fs := [field] + rest;
    forall k | k in Keys(rest) ensures k in Keys(fs) {
      var i :| 0 <= i < |rest| && rest[i].0 == k;
      assert fs[i + 1].0 == k;
    }
    assert fs[0].0 == field.0;
  }

  /** `Object.Get`: the value of the first field with the key. */
  function Get(fields: seq<(string, Json)>, key: string): (r: Option<Json>)
    ensures r.None? <==> key !in Keys(fields)
  {
    if fields == [] then None
    else if fields[0].0 == key then Some(fields[0].1)
    else
      KeysCons(fields[0], fields[1..]);
      assert fields == [fields[0]] + fields[1..];
      Get(fields[1..], key)
  }

  /** The value `Get` finds is the one of the first field with the key. */
  lemma {:induction false} GetFirstMatch(fields: seq<(string, Json)>, key: string)
    ensures Get(fields, key).Some? ==>
              exists i :: 0 <= i < |fields| && fields[i] == (key, Get(fields, key).value)
                          && forall j :: 0 <= j < i ==> fields[j].0 != key
  {
    if fields != [] && fields[0].0 != key {
      GetFirstMatch(fields[1..], key);
      if Get(fields, key).Some? {
        var i :| 0 <= i < |fields[1..]| && fields[1..][i] == (key, Get(fields, key).value)
                 && forall j :: 0 <= j < i ==> fields[1..][j].0 != key;
        assert fields[i + 1] == (key, Get(fields, key).value);
        assert forall j :: 0 <= j < i + 1 ==> fields[j].0 != key by {
          forall j | 0 <= j < i + 1 ensures fields[j].0 != key {
            if j > 0 { assert fields[j] == fields[1..][j - 1]; }
          }
        }
      }
    } else if fields != [] {
      assert fields[0] == (key, Get(fields, key).value);
    }
  }

  /** `Object.Set`: replace the value of the first field with the key, or append a new field. */
  function Set(fields: seq<(string, Json)>, key: string, value: Json): (r: seq<(string, Json)>)
    ensures Keys(r) == Keys(fields) + {key}
    ensures Get(r, key) == Some(value)
    ensures forall k :: k != key ==> Get(r, k) == Get(fields, k)
  {
    if fields == [] then
      KeysCons((key, value), []);
      assert [(key, value)] + [] == [(key, value)];
      [(key, value)]
    else if fields[0].0 == key then
      KeysCons(fields[0], fields[1..]);
      KeysCons((key, value), fields[1..]);
      assert fields == [fields[0]] + fields[1..];
      [(key, value)] + fields[1..]
    else
      KeysCons(fields[0], fields[1..]);
      assert fields == [fields[0]] + fields[1..];
      var rest := Set(fields[1..], key, value);
      KeysCons(fields[0], rest);
      [fields[0]] + rest
  }

  /** `Value.GetStringBytes(key)`: the string under the key of an object, or nil when the
      value is not an object, the key is missing or its value is not a string. */
  function GetStringBytes(v: Json, key: string): (r: Option<string>)
    ensures r.Some? <==> v.Object? && Get(v.fields, key).Some? && Get(v.fields, key).value.Str?
    ensures r.Some? ==> Get(v.fields, key) == Some(Str(r.value))
  {
    if v.Object? then
      match Get(v.fields, key)
      case Some(Str(s)) => Some(s)
      case _ => None
    else None
  }

  /** `Value.SetArrayItem(idx, value)` on an array's items: pad with nulls up to `idx`, then place. */
  function SetArrayItem(items: seq<Json>, idx: nat, value: Json): (r: seq<Json>)
    ensures |r| == if idx < |items| then |items| else idx + 1
    ensures r[idx] == value
    ensures forall k :: 0 <= k < |r| && k != idx ==> r[k] == if k < |items| then items[k] else Null
  {
    if idx < |items| then items[idx := value]
    else items + seq(idx - |items|, _ => Null) + [value]
  }
}
