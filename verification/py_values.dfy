/**
 The parsed `pyproject.toml` as the checker sees it (the dictionary `toml.loads`
 returns), and the Python operations the checks apply to its nodes. Python raises
 on ill-typed operations (`'x' in 5`, `[1]['k']`, `'s'.get(...)`); those raises are
 the `Raised` outcome here, so a check that would crash is visible as such.
 */
module PyValues {
  import opened PyStrings

  /** One node of the parsed TOML document. */
  datatype Value =
    | Str(s: string)
    | Int(i: int)
    | Bool(b: bool)
    | Array(items: seq<Value>)
    | Table(fields: map<string, Value>)

  /** The top level of a parsed document is always a table. */
  type Config = map<string, Value>

  /** The Python exceptions the modelled code can raise. */
  datatype PyError = TypeError | AttributeError | KeyError | ValueError

  /** The value a Python expression evaluates to, or the exception it raises. */
  datatype Result<+T> = Ok(value: T) | Raised(error: PyError) {
    predicate IsFailure() { Raised? }

    /** Passes the exception on; `:-` only calls it on a failure. */
    function PropagateFailure<U>(): Result<U>
    {
      match this
      case Raised(e) => Raised(e)
      case Ok(_) => Raised(TypeError)
    }

    function Extract(): T
      requires Ok?
    {
      value
    }
  }

  const EmptyTable: Value := Table(map[])

  /** Python's `key in v` for a string `key`: substring in a string, element in a
      list, key in a dict; any other operand raises `TypeError`. */
  function In(key: string, v: Value): (r: Result<bool>)
    ensures r.Raised? <==> v.Int? || v.Bool?
    ensures v.Table? ==> r == Ok(key in v.fields)
    ensures v.Str? ==> r == Ok(Occurs(key, v.s))
    ensures v.Array? ==> r == Ok(Str(key) in v.items)
  {
    match v
    case Str(s) => Ok(InStr(key, s))
    case Array(items) => Ok(Str(key) in items)
    case Table(m) => Ok(key in m)
    case _ => Raised(TypeError)
  }

  /** Python's `v[key]`: only a dict can be subscripted by a string. */
  function Index(v: Value, key: string): (r: Result<Value>)
    ensures r.Ok? <==> v.Table? && key in v.fields
    ensures r.Ok? ==> r.value == v.fields[key]
  {
    match v
    case Table(m) => if key in m then Ok(m[key]) else Raised(KeyError)
    case _ => Raised(TypeError)
  }

  /** Python's `v.get(key, default)`: only a dict has `get`. */
  function Get(v: Value, key: string, default: Value): (r: Result<Value>)
    ensures r.Ok? <==> v.Table?
    ensures r.Ok? ==> r.value == (if key in v.fields then v.fields[key] else default)
  {
    match v
    case Table(m) => Ok(if key in m then m[key] else default)
    case _ => Raised(AttributeError)
  }

  /** `config.get(key, default)` on the top-level dictionary, which cannot fail. */
  function ConfigGet(config: Config, key: string, default: Value): Value
  {
    if key in config then config[key] else default
  }

  /** The decimal digits of `n`, as Python's `str(n)` prints them. */
  function NatDigits(n: nat): string
    decreases n
  {
    var d := ['0' + (n % 10) as char];
    if n < 10 then d else NatDigits(n / 10) + d
  }

  /** Python's `str(n)` for an integer. */
  function IntText(n: int): string
  {
    if n < 0 then "-" + NatDigits(-n) else NatDigits(n)
  }

  /** Whether the text Python's `str(v)` produces contains `pat`. For a string
      this is the string itself. For a container the pattern is looked for in the
      raw text of each key and element separately, while Python renders strings
      quoted and escaped (`str(['\n'])` contains `n`). The two agree for a pattern
      of printable characters holding no quote, comma, colon, bracket, brace,
      space or backslash, whose first character is neither a letter nor a digit,
      such as `--cov`: a match can then neither start inside an escape sequence
      nor run past one element's text. */
  predicate TextMentions(v: Value, pat: string)
  {
    match v
    case Str(s) => InStr(pat, s)
    case Int(n) => InStr(pat, IntText(n))
    case Bool(b) => InStr(pat, if b then "True" else "False")
    case Array(items) => exists i | 0 <= i < |items| :: TextMentions(items[i], pat)
    case Table(m) => exists k | k in m :: InStr(pat, k) || TextMentions(m[k], pat)
  }
}
