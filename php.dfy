/** PHP values as the authentication and configuration code sees them:
    scalars, arrays keyed by integers or strings, and the two kinds of
    entity object the configuration loader can produce. */
module Php {

  datatype Option<+T> = None | Some(value: T) {
    function GetOr(default: T): T {
      if Some? then value else default
    }
  }

  datatype Result<+T, +E> = Success(value: T) | Failure(error: E)

  /** What can leave a call: the package's own InvalidArgumentException,
      anything the API client throws, and the TypeError a built-in raises
      for an argument of the wrong type (the files declare strict types;
      a TypeError is not an \Exception, so `catch (\Exception)` lets it
      through). */
  datatype Exception = InvalidArgument | ClientError | TypeError

  /** A call that either returns a value or throws. */
  datatype Outcome<+T> = Ok(value: T) | Threw(exception: Exception)

  /** Array keys: PHP arrays are keyed by integers or by strings. */
  datatype Key = Index(n: int) | Name(s: string)

  /** A PHP value. `Arr` is a PHP array (its insertion order is not
      kept); `NeonEntity` is a configuration entity decoded to an object
      with `value` and `attributes`; `Statement` is a DI statement with
      `entity` and `arguments`. */
  datatype Value =
    | Null
    | Bool(b: bool)
    | Int(i: int)
    | Str(s: string)
    | Arr(entries: map<Key, Value>)
    | NeonEntity(value: string, attributes: Value)
    | Statement(entity: string, arguments: Value)

  /** An access token or a set of ID-token claims: a decoded JSON object. */
  type Token = map<Key, Value>
  type Claims = map<Key, Value>

  /** PHP's conversion of a string to bool: only "" and "0" are false. */
  predicate TruthyString(s: string) {
    s != "" && s != "0"
  }

  /** PHP's conversion of a value to bool (what `if ($v)` and `!empty($v)` test). */
  predicate Truthy(v: Value) {
    match v
    case Null => false
    case Bool(b) => b
    case Int(i) => i != 0
    case Str(s) => TruthyString(s)
    case Arr(m) => |m| > 0
    case NeonEntity(_, _) => true
    case Statement(_, _) => true
  }

  /** `!empty($a)` for a nullable array. */
  predicate Filled(a: Option<map<Key, Value>>) {
    a.Some? && |a.value| > 0
  }

  /** `isset($m[$k])`: the key is present and its value is not null. */
  predicate Isset<K>(m: map<K, Value>, k: K) {
    k in m && m[k] != Null
  }

  /** `$m[$k]` where a missing key reads as null. */
  function Lookup<K>(m: map<K, Value>, k: K): (v: Value)
    ensures Isset(m, k) <==> v != Null
    ensures k in m ==> v == m[k]
  {
    if k in m then m[k] else Null
  }
}
