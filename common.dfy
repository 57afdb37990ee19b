/** Vocabulary shared by the profile editor and the post engine: ids, request
    body values as the route handlers inspect them, and handler outcomes. */
module Common {

  /** A database id (user, profile entry, post, comment). The handlers compare
      ids through `toString()`, so an id is modelled by its string form. */
  type Id = string

  /** The value of one field of a parsed JSON request body, or of a stored
      document field. `Strs` is a list of strings: what `split`/`map(trim)`
      produces for `skills` and `courses`. */
  datatype Value = Null | Bool(b: bool) | Num(n: int) | Str(s: string) | Strs(items: seq<string>)

  /** A parsed request body; a field the client did not send is an absent key. */
  type Body = map<string, Value>

  /** JavaScript truthiness of a value: `null`, `false`, `0` and `""` are falsy,
      every array is truthy. */
  predicate Truthy(v: Value) {
    match v
    case Null => false
    case Bool(b) => b
    case Num(n) => n != 0
    case Str(s) => s != ""
    case Strs(_) => true
  }

  /** `if (req.body[key])`: the field is present and truthy (an absent field
      reads as `undefined`, which is falsy). */
  predicate Given(body: Body, key: string) {
    key in body && Truthy(body[key])
  }

  /** express-validator's `check(key).not().isEmpty()`: the field, converted to
      a string, is not empty (`null` and `undefined` convert to ""). */
  predicate NotEmpty(body: Body, key: string) {
    key in body &&
    match body[key]
    case Null => false
    case Str(s) => s != ""
    case _ => true
  }

  /** Every field in `required` passes `not().isEmpty()`. */
  predicate Validates(body: Body, required: seq<string>) {
    forall k :: k in required ==> NotEmpty(body, k)
  }

  /** Validation and the field loops judge a field by different rules: a
      truthy field always passes `not().isEmpty()`, `false` and `0` pass it
      without being copied, and a missing, `null` or empty field fails both. */
  lemma GivenIsNotEmpty(body: Body, key: string)
    ensures Given(body, key) ==> NotEmpty(body, key)
    ensures key in body && (body[key] == Bool(false) || body[key] == Num(0)) ==>
              NotEmpty(body, key) && !Given(body, key)
    ensures key !in body || body[key] == Null || body[key] == Str("") ==>
              !NotEmpty(body, key) && !Given(body, key)
  {
  }

  datatype Option<T> = None | Some(value: T)

  /** What a handler ends in. Every outcome except `Ok` leaves the stores as
      they were. `ServerError` is an exception caught by the handler's `catch`
      (HTTP 500); `UncaughtTypeError` is a `TypeError` thrown before the
      handler's `try`, so no document is loaded or saved. */
  datatype Outcome =
    | Ok
    | ValidationFailed
    | ProfileNotFound
    | EntryNotFound
    | PostNotFound
    | UserNotFound
    | CommentNotFound
    | Unauthorized
    | ServerError
    | UncaughtTypeError
}
