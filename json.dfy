/**
 * Parsed request bodies: the values `request.json()` produces, property
 * access on them and JavaScript truthiness. A property that is absent reads
 * as `undefined`, modelled as `None`.
 */
module JsonValue {
  import opened Text

  datatype Json =
    | JNull
    | JBool(b: bool)
    | JNumber(n: int)
    | JString(s: string)
    | JArray(items: seq<Json>)
    | JObject(fields: seq<(string, Json)>)

  /** `value[key]`: a member of an object (the last one when a key repeats, as `JSON.parse` keeps it); `undefined` otherwise. */
  function Field(v: Json, key: string): (r: Option<Json>)
    ensures !v.JObject? ==> r.None?
    ensures r.Some? ==> v.JObject? && (key, r.value) in v.fields
  {
    if v.JObject? then LastMember(v.fields, key) else None
  }

  function LastMember(fields: seq<(string, Json)>, key: string): (r: Option<Json>)
    ensures r.Some? ==> (key, r.value) in fields
  {
    if fields == [] then None
    else if fields[|fields| - 1].0 == key then Some(fields[|fields| - 1].1)
    else LastMember(fields[..|fields| - 1], key)
  }

  /** A member is found iff the key occurs, and the one found is the last occurrence. */
  lemma {:induction false} LastMemberSpec(fields: seq<(string, Json)>, key: string)
    ensures LastMember(fields, key).None? <==> forall i | 0 <= i < |fields| :: fields[i].0 != key
    ensures LastMember(fields, key).Some? ==>
      exists i | 0 <= i < |fields| :: fields[i] == (key, LastMember(fields, key).value) && forall j | i < j < |fields| :: fields[j].0 != key
  {
    if fields != [] && fields[|fields| - 1].0 != key {
      var init := fields[..|fields| - 1];
      LastMemberSpec(init, key);
      if LastMember(init, key).Some? {
        var i :| 0 <= i < |init| && init[i] == (key, LastMember(init, key).value) && forall j | i < j < |init| :: init[j].0 != key;
        assert fields[i] == init[i];
      }
    }
  }

  /** JavaScript truthiness of a possibly undefined value. */
  predicate Truthy(v: Option<Json>) {
    match v
    case None => false
    case Some(JNull) => false
    case Some(JBool(b)) => b
    case Some(JNumber(n)) => n != 0
    case Some(JString(s)) => s != []
    case Some(_) => true
  }

  /** `typeof v === "string"` */
  predicate IsString(v: Option<Json>) {
    v.Some? && v.value.JString?
  }

  /** The string a `typeof v === "string"` test admitted. */
  function Str(v: Option<Json>): string
    requires IsString(v)
  {
    v.value.s
  }

  /** A falsy value is undefined, null, false, 0 or the empty string. */
  lemma FalsyValues(v: Option<Json>)
    ensures !Truthy(v) <==>
      v.None? || v == Some(JNull) || v == Some(JBool(false)) || v == Some(JNumber(0)) || v == Some(JString([]))
  {
  }
}
