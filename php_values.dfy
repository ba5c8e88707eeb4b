/**
 * The slice of PHP's value model that the upload endpoint touches: scalars,
 * ordered arrays (PHP's ordered hash maps), the `stdClass` objects that
 * `json_decode` produces, and the conversions the code relies on implicitly
 * (truthiness, string conversion, `$array[$key]` lookup).
 *
 * The request superglobals and the JSON extension are explicit inputs here.
 */
module PhpValues {

  datatype Option<T> = None | Some(value: T)

  /** An array key: PHP canonicalises keys to integers or strings. */
  datatype Key = IntKey(i: int) | StrKey(s: string)

  /** A PHP value. Floats and resources are not part of this model. */
  datatype Value =
    | Null
    | Bool(b: bool)
    | Int(i: int)
    | Str(s: string)
    | Arr(entries: seq<(Key, Value)>)
    | Obj(props: seq<(string, Value)>)

  /** The value stored under `k` in an array's entries (the first one), or `Null`. */
  function Get(entries: seq<(Key, Value)>, k: Key): Value
  {
    if entries == [] then Null
    else if entries[0].0 == k then entries[0].1
    else Get(entries[1..], k)
  }

  /** `$v[$k]`: `Null` when `v` is not an array or has no such key. */
  function Lookup(v: Value, k: Key): Value
  {
    if v.Arr? then Get(v.entries, k) else Null
  }

  /** `$v['name']` for a literal string key. */
  function Field(v: Value, name: string): Value
  {
    Lookup(v, StrKey(name))
  }

  /** `isset($v)` for a value that exists. */
  predicate IsSet(v: Value)
  {
    v != Null
  }

  /** PHP's conversion to boolean (`if ($v)`, `?:`). */
  predicate Truthy(v: Value)
  {
    match v
    case Null => false
    case Bool(b) => b
    case Int(i) => i != 0
    case Str(s) => s != "" && s != "0"
    case Arr(e) => |e| > 0
    case Obj(_) => true
  }

  /** `!empty($s)` for a string. */
  predicate NonEmptyString(s: string)
  {
    Truthy(Str(s))
  }

  function Digit(d: nat): char
    requires d < 10
  {
    ('0' as int + d) as char
  }

  /** The decimal representation of a natural number. */
  function NatToDecimal(n: nat): (s: string)
    ensures |s| > 0
    ensures forall i :: 0 <= i < |s| ==> '0' <= s[i] <= '9'
  {
    if n < 10 then [Digit(n)] else NatToDecimal(n / 10) + [Digit(n % 10)]
  }

  /**
   * PHP's conversion to string, as done by `.` and by string parameters.
   * Converting an object to a string is an `Error` in PHP; no object reaches
   * such a conversion in this model, and it yields "" here.
   */
  function ToStr(v: Value): string
  {
    match v
    case Null => ""
    case Bool(b) => if b then "1" else ""
    case Int(i) => if i < 0 then "-" + NatToDecimal(-i) else NatToDecimal(i)
    case Str(s) => s
    case Arr(_) => "Array"
    case Obj(_) => ""
  }

  /** The keys of an array in order: `array_keys`. */
  function Keys(entries: seq<(Key, Value)>): (ks: seq<Key>)
    ensures |ks| == |entries|
    ensures forall i :: 0 <= i < |entries| ==> ks[i] == entries[i].0
  {
    seq(|entries|, i requires 0 <= i < |entries| => entries[i].0)
  }

  /** The values of an array in order: `array_values`. */
  function Values(entries: seq<(Key, Value)>): (vs: seq<Value>)
    ensures |vs| == |entries|
    ensures forall i :: 0 <= i < |entries| ==> vs[i] == entries[i].1
  {
    seq(|entries|, i requires 0 <= i < |entries| => entries[i].1)
  }

  /** The PHP list `[v0, v1, ...]`: keys 0..n-1 in order. */
  function ListOf(vs: seq<Value>): (v: Value)
    ensures v.Arr? && |v.entries| == |vs|
    ensures forall i :: 0 <= i < |vs| ==> v.entries[i] == (IntKey(i), vs[i])
  {
    Arr(seq(|vs|, i requires 0 <= i < |vs| => (IntKey(i), vs[i])))
  }

  /**
   * The request superglobals and PHP's record of uploaded temporary files:
   * `$_FILES`, `$_POST`, and for every path that `is_uploaded_file` accepts,
   * the bytes `file_get_contents` returns for it.
   */
  datatype Globals = Globals(files: map<string, Value>, post: map<string, Value>, uploads: map<string, string>)

  /** `isset($_FILES[$entry])`. */
  predicate HasFilePart(g: Globals, entry: string)
  {
    entry in g.files && g.files[entry] != Null
  }

  /** `isset($_POST[$entry])`. */
  predicate HasFormField(g: Globals, entry: string)
  {
    entry in g.post && g.post[entry] != Null
  }

  /** `$_FILES[$entry]`, `Null` when unset. */
  function FilePart(g: Globals, entry: string): Value
  {
    if entry in g.files then g.files[entry] else Null
  }

  /** `$_POST[$entry]`, `Null` when unset. */
  function FormField(g: Globals, entry: string): Value
  {
    if entry in g.post then g.post[entry] else Null
  }

  /**
   * The JSON extension, a foreign component: `decode` is `json_decode` on a
   * string and `encode` is `json_encode`.
   */
  datatype Json = Json(decode: string -> Value, encode: Value -> string)

  /**
   * `@json_decode($v)`: strings and scalars are decoded (scalars after string
   * conversion); arrays and objects are refused and yield `null`.
   */
  function JsonDecode(json: Json, v: Value): (r: Value)
    ensures (v.Arr? || v.Obj?) ==> r == Null
    ensures v.Str? ==> r == json.decode(v.s)
  {
    if v.Arr? || v.Obj? then Null else json.decode(ToStr(v))
  }
}
