/** The Python values a filter can carry, and the parts of the Python runtime the
    filters lean on. */
module PyValue {
  import opened Text

  datatype Py =
    | NoneValue
    | Bool(b: bool)
    | Num(n: real)
    | Str(s: string)
    | List(items: seq<Py>)
    | Tuple(items: seq<Py>)
    | Dict(repr: string)
    | Other(repr: string)

  datatype RangeOp = Gt | Lt | Ge | Le

  /** `fold` is `str.lower` per character, `literal` is `ast.literal_eval` (`None`
      where it raises), `show` is `str()` of a value that is not text, `compare`
      is an ordering test and `member` is `x in container` for containers that are
      neither text nor list (`None` where they raise). */
  datatype PyEnv = PyEnv(
    fold: char -> char,
    literal: string -> Option<Py>,
    show: Py -> string,
    compare: (RangeOp, Py, Py) -> Option<bool>,
    member: (Py, Py) -> Option<bool>)

  function Show(env: PyEnv, v: Py): string {
    if v.Str? then v.s else env.show(v)
  }

  function AsNumber(v: Py): Option<real> {
    match v
    case Num(n) => Some(n)
    case Bool(b) => Some(if b then 1.0 else 0.0)
    case _ => None
  }

  /** Python's number that a text is the literal of; a bool counts as one. */
  function NumberIn(env: PyEnv, s: string): Option<Py> {
    match env.literal(s)
    case Some(Num(n)) => Some(Num(n))
    case Some(Bool(b)) => Some(Bool(b))
    case _ => None
  }

  /** Python's `==`: a bool is the number 0 or 1, sequences compare by element. */
  predicate PyEq(a: Py, b: Py) {
    match (a, b)
    case (List(xs), List(ys)) => |xs| == |ys| && forall i :: 0 <= i < |xs| ==> PyEq(xs[i], ys[i])
    case (Tuple(xs), Tuple(ys)) => |xs| == |ys| && forall i :: 0 <= i < |xs| ==> PyEq(xs[i], ys[i])
    case _ => if AsNumber(a).Some? && AsNumber(b).Some? then AsNumber(a) == AsNumber(b) else a == b
  }

  function LowerText(env: PyEnv, v: Py): Py {
    if v.Str? then Str(Lower(env.fold, v.s)) else v
  }

  predicate IsDigit(c: char) {
    '0' <= c <= '9'
  }

  /** The strict `YYYY-MM-DD` recogniser. */
  predicate IsDate(s: string) {
    && |s| == 10
    && s[4] == '-' && s[7] == '-'
    && (forall i :: 0 <= i < 10 && i != 4 && i != 7 ==> IsDigit(s[i]))
  }
}
