/**
  The Python values the ingestion code handles: decoded JSON documents, the
  exceptions the code can raise, and the few Python operations it applies to
  JSON (subscript, `.get`, `[0]`, truthiness).
 */
module Values {
  import opened Wrappers

  /** The exceptions the modelled code can raise. */
  datatype Exc =
    | ValueError        // float() on non-numeric text; response.json() on a body that is not JSON
    | KeyError          // d[k] with k not a key of the dict d
    | IndexError        // xs[0] on an empty list or string
    | TypeError         // subscripting None, a number, a bool, or a list/str with a string key
    | OperationalError  // sqlite3: INSERT into or SELECT from a table that does not exist
    | ProgrammingError  // sqlite3: binding a dict or list as a parameter (InterfaceError before Python 3.11)

  /** A Python computation: a value, or a raised exception. */
  type Try<T> = Result<T, Exc>

  /**
    Floating-point numbers (coordinates, temperatures, ...). The code only
    passes them through, so no float arithmetic is modelled.
   */
  type Float = real

  /** A decoded JSON document, as `json.loads` hands it to Python. */
  datatype Json =
    | Null
    | Bool(b: bool)
    | Num(n: Float)
    | Str(s: string)
    | Arr(items: seq<Json>)
    | Obj(fields: map<string, Json>)

  /** An HTTP reply: its status code and its body, `None` when the body is not JSON. */
  datatype Reply<T> = Reply(status: int, body: Option<T>)

  /** The only status code both providers' callers treat as success. */
  const HttpOk: int := 200

  /** Python's truthiness (`if v:`, `a or b`) of a JSON value. */
  predicate Truthy(v: Json) {
    match v
    case Null => false
    case Bool(b) => b
    case Num(n) => n != 0.0
    case Str(s) => |s| > 0
    case Arr(items) => |items| > 0
    case Obj(fields) => |fields| > 0
  }

  /** `v[key]` for a string key. */
  function Subscript(v: Json, key: string): Try<Json> {
    match v
    case Obj(fields) => if key in fields then Success(fields[key]) else Failure(KeyError)
    case _ => Failure(TypeError)
  }

  /** `v[0]`: JSON object keys are strings, so a dict never has the key 0. */
  function First(v: Json): Try<Json> {
    match v
    case Arr(items) => if |items| > 0 then Success(items[0]) else Failure(IndexError)
    case Str(s) => if |s| > 0 then Success(Str([s[0]])) else Failure(IndexError)
    case Obj(_) => Failure(KeyError)
    case _ => Failure(TypeError)
  }

  /** `response.json()`: the decoded body, or ValueError (requests' JSONDecodeError) when it is not JSON. */
  function ParsedBody<T>(r: Reply<T>): Try<T> {
    match r.body
    case Some(doc) => Success(doc)
    case None => Failure(ValueError)
  }
}
