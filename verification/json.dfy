/** JSON documents as returned by the chat platform's web API, as a closed sum
    type, together with the Python idioms the commands use to read them:
    truthiness, `d.get(key)` and `d.get(key, default)`.

    One reading rule is used everywhere: a member of the wrong JSON type for the
    way the code uses it (a number where a string is concatenated, a string
    where `.get` is called) is read as absent. */
module JsonValues {
  import opened Wrappers

  datatype Json =
    | JNull
    | JBool(b: bool)
    | JNum(n: real)
    | JStr(s: string)
    | JArr(items: seq<Json>)
    | JObj(fields: map<string, Json>)

  const EmptyObject: Json := JObj(map[])

  /** Python's `bool(v)` on a decoded JSON value. */
  predicate Truthy(j: Json) {
    match j
    case JNull => false
    case JBool(b) => b
    case JNum(n) => n != 0.0
    case JStr(s) => s != ""
    case JArr(a) => a != []
    case JObj(m) => m != map[]
  }

  /** `j.get(key)`: the member when `j` is an object that has it. */
  function Member(j: Json, key: string): (r: Option<Json>)
    ensures r.Some? <==> j.JObj? && key in j.fields
    ensures r.Some? ==> r.value == j.fields[key]
  {
    if j.JObj? && key in j.fields then Some(j.fields[key]) else None
  }

  /** A string member: `Some` only when the member is a JSON string. */
  function Text(j: Json, key: string): (r: Option<string>)
    ensures r.Some? <==> Member(j, key).Some? && Member(j, key).value.JStr?
    ensures r.Some? ==> Member(j, key) == Some(JStr(r.value))
  {
    match Member(j, key)
    case Some(JStr(s)) => Some(s)
    case _ => None
  }

  /** A string member used as a truth value (`if x:` after `x = d.get(key)`):
      present only when it is a non-empty string. */
  function NonEmptyText(j: Json, key: string): (r: Option<string>)
    ensures r.Some? <==> Text(j, key).Some? && Text(j, key).value != ""
    ensures r.Some? ==> Text(j, key) == r
  {
    match Text(j, key)
    case Some(s) => if s != "" then Some(s) else None
    case None => None
  }

  /** `j.get(key, {})` for a member that is used as an object. */
  function Obj(j: Json, key: string): (r: Json)
    ensures r.JObj?
    ensures Member(j, key).Some? && Member(j, key).value.JObj? ==> r == Member(j, key).value
    ensures !(Member(j, key).Some? && Member(j, key).value.JObj?) ==> r == EmptyObject
  {
    match Member(j, key)
    case Some(JObj(m)) => JObj(m)
    case _ => EmptyObject
  }

  /** `j.get(key, [])` for a member that is iterated as a list. */
  function Array(j: Json, key: string): (r: seq<Json>)
    ensures Member(j, key).Some? && Member(j, key).value.JArr? ==> r == Member(j, key).value.items
    ensures !(Member(j, key).Some? && Member(j, key).value.JArr?) ==> r == []
  {
    match Member(j, key)
    case Some(JArr(a)) => a
    case _ => []
  }

  /** `bool(j.get(key))`. */
  predicate TruthyMember(j: Json, key: string) {
    Member(j, key).Some? && Truthy(Member(j, key).value)
  }

  /** `result.get('ok')` on a reply that arrived: the web API's success flag. */
  predicate Ok(reply: Json) {
    TruthyMember(reply, "ok")
  }

  /** `result and result.get('ok')` on a reply that may be missing. */
  predicate OkReply(reply: Option<Json>) {
    reply.Some? && Ok(reply.value)
  }
}
