/** JSON-shaped Python values, their truthiness, the abstract JSON codec, and the
    failures (Python exceptions) the core can raise. */
module Json {
  import opened Text

  /** A value json.loads can produce: None, bool, number, str, list or dict. */
  datatype Value =
    | Null
    | Bool(b: bool)
    | Num(n: real)
    | Str(s: string)
    | Arr(items: seq<Value>)
    | Obj(fields: map<string, Value>)

  type Object = map<string, Value>

  /** Python's bool(v). */
  predicate Truthy(v: Value) {
    match v
    case Null => false
    case Bool(b) => b
    case Num(n) => n != 0.0
    case Str(s) => s != []
    case Arr(xs) => xs != []
    case Obj(m) => m != map[]
  }

  /** Python's d.get(k, default) on a dict. */
  function Get(m: Object, k: string, default: Value): (v: Value)
    ensures k in m ==> v == m[k]
    ensures k !in m ==> v == default
  {
    if k in m then m[k] else default
  }

  /** Python's `a or b` where a is an optional string (None and "" are falsy). */
  function OrElse(a: Option<string>, b: string): (r: string)
    ensures (a.Some? && a.value != []) ==> r == a.value
    ensures (a.None? || a.value == []) ==> r == b
  {
    if a.Some? && a.value != [] then a.value else b
  }

  datatype Option<+T> = None | Some(value: T)

  /** The JSON library and Python's str(), which the core only calls and never defines:
      encode is json.dumps, decode is json.loads (None for a JSONDecodeError), show is
      str(). */
  datatype Codec = Codec(encode: Value -> string, decode: string -> Option<Value>, show: Value -> string)

  /** What the core relies on of those functions: json.loads inverts json.dumps, and
      str() of a str is the str itself. */
  ghost predicate Lawful(c: Codec) {
    && (forall v :: c.decode(c.encode(v)) == Some(v))
    && (forall s :: c.show(Str(s)) == s)
  }

  /** json.dumps without indent writes an object on one line, with no surrounding space
      and never empty (it starts with '{'). */
  ghost predicate OneLine(c: Codec) {
    forall m: Object :: '\n' !in c.encode(Obj(m)) && c.encode(Obj(m)) != [] && IsStripped(c.encode(Obj(m)))
  }

  /** The Python exceptions the core lets escape. */
  datatype Fault =
    | ValueError(msg: string)          // ValueError, including a failed tuple unpacking
    | RuntimeError(msg: string)        // RuntimeError raised by the clients
    | KeyError(key: string)            // d[key] on a dict without key
    | TypeError                        // an operation applied to a value of the wrong type
    | AttributeError                   // .get / .pop on a value that is not a dict
    | FileNotFoundError(msg: string)   // the embedded sources cannot be found
    | SameFileError                    // shutil.copy onto its own source
    | EnvironmentRejected              // os.environ[k] = v refused by putenv (see EnvFile.Rejected)
    | TransportError                   // requests.post itself failed (connection, timeout)
    | JsonDecodeError                  // response.json() on a body that is not JSON
    | MalformedResponse                // a provider reply whose JSON has an unexpected shape

  datatype Result<+T> = Ok(value: T) | Err(fault: Fault) {
    predicate IsFailure() { Err? }
    function PropagateFailure<U>(): Result<U> requires Err? { Err(fault) }
    function Extract(): T requires Ok? { value }
  }
}
