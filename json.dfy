/** JavaScript values as the TypeScript runtimes handle them: what
    `JSON.parse` produces, plus `undefined`, which a property read yields
    for a missing property and an object literal may hold. Numbers are
    opaque `real`s. */
module Json {
  import opened Wrappers

  datatype Json =
    | JUndefined
    | JNull
    | JBool(b: bool)
    | JNum(n: real)
    | JStr(s: string)
    | JArr(items: seq<Json>)
    | JObj(fields: map<string, Json>)

  /** Property access `j.k` on a value that is not `undefined` or `null`:
      a missing property, or a value with no properties, reads as
      `undefined`. */
  function Get(j: Json, k: string): (r: Json)
    ensures j.JObj? && k in j.fields ==> r == j.fields[k]
    ensures !(j.JObj? && k in j.fields) ==> r == JUndefined
  {
    if j.JObj? && k in j.fields then j.fields[k] else JUndefined
  }

  /** `undefined` or `null`, the values `??` replaces. */
  predicate Nullish(v: Json)
  {
    v.JUndefined? || v.JNull?
  }

  /** An optional string as a property value: `undefined` when absent. */
  function FromOptString(v: Option<string>): (r: Json)
    ensures v.None? <==> Nullish(r)
  {
    if v.Some? then JStr(v.value) else JUndefined
  }

  /** A string-or-nullish property read back; `None` for a value of any
      other type, which the typed model cannot hold. */
  function OptString(v: Json): (r: Option<Option<string>>)
    ensures r == Some(None) <==> Nullish(v)
  {
    if Nullish(v) then Some(None)
    else if v.JStr? then Some(Some(v.s))
    else None
  }

  lemma OptStringRoundTrip(v: Option<string>)
    ensures OptString(FromOptString(v)) == Some(v)
  {
  }
}
