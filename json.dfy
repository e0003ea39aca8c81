/**
 * Parsed JSON values as json.load returns them, with Python's subscript
 * semantics: indexing an object by a missing key is a KeyError, indexing
 * anything that is not an object by a string is a TypeError.
 */
module JsonData {
  import opened Wrappers
  import opened Dicts

  datatype Json =
    | JNull
    | JBool(b: bool)
    | JNum(n: real)
    | JStr(s: string)
    | JObj(members: Dict<string, Json>)

  /** The outcome of one subscript `value[key]`. */
  datatype Step = Value(value: Json) | KeyError | TypeError

  /** value[key]. */
  function Index(j: Json, key: string): (r: Step)
    ensures r.TypeError? <==> !j.JObj?
    ensures j.JObj? ==> (r.KeyError? <==> !HasKey(j.members, key))
    ensures r.Value? ==> j.JObj? && Get(j.members, key) == Some(r.value)
  {
    match j
    case JObj(members) =>
      (match Get(members, key)
       case Some(v) => Value(v)
       case None => KeyError)
    case _ => TypeError
  }

  /** One more subscript after a previous one; an exception stops the chain unchanged. */
  function Then(s: Step, key: string): (r: Step)
    ensures !s.Value? ==> r == s
    ensures s.Value? ==> r == Index(s.value, key)
  {
    match s
    case Value(v) => Index(v, key)
    case _ => s
  }
}
