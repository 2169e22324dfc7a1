/** The slice of JavaScript semantics the wire checks and the selection rely on:
    decoded JSON values, `typeof`, property access that throws on `null` and
    `undefined`, short-circuit `&&`/`||`, truthiness, and the IEEE number
    results (infinities, NaN) that a division by zero produces. */
module Js {
  import Seqs

  /** A decoded JSON value. `Undefined` stands for a missing property; JSON
      itself never produces it. Numbers are exact. */
  datatype Value =
    | Undefined
    | Null
    | Bool(b: bool)
    | Num(n: real)
    | Str(s: string)
    | Arr(elems: seq<Value>)
    | Obj(fields: map<string, Value>)

  /** The strings `typeof` can return for a JSON value. */
  datatype TypeTag = UndefinedTag | ObjectTag | BooleanTag | NumberTag | StringTag

  /** `typeof v`: `null` and arrays are both reported as 'object'. */
  function TypeOf(v: Value): TypeTag
  {
    match v
    case Undefined => UndefinedTag
    case Null => ObjectTag
    case Bool(_) => BooleanTag
    case Num(_) => NumberTag
    case Str(_) => StringTag
    case Arr(_) => ObjectTag
    case Obj(_) => ObjectTag
  }

  predicate Nullish(v: Value)
  {
    v.Undefined? || v.Null?
  }

  /** The value of own property `key`, or `Undefined`. This is also what the
      optional chain `v?.key` yields, since it never throws. */
  function Field(v: Value, key: string): Value
  {
    if v.Obj? && key in v.fields then v.fields[key] else Undefined
  }

  /** What a JavaScript expression can raise in this model. */
  datatype Thrown = TypeError | Error(message: string)

  /** The completion of evaluating an expression: a value, or a thrown error. */
  datatype Eval<+T> = Ok(value: T) | Throw(thrown: Thrown)

  /** `e.key` where `e` is an already evaluated expression. Reading a property
      of `null` or `undefined` raises a TypeError; primitives and arrays have
      none of the named properties read here. */
  function Dot(e: Eval<Value>, key: string): (r: Eval<Value>)
    ensures r.Throw? <==> e.Throw? || Nullish(e.value)
    ensures r.Ok? ==> r.value == Field(e.value, key)
  {
    match e
    case Throw(x) => Throw(x)
    case Ok(v) =>
      match v
      case Undefined => Throw(TypeError)
      case Null => Throw(TypeError)
      case _ => Ok(Field(v, key))
  }

  /** `typeof e === tag`. */
  function TypeIs(e: Eval<Value>, tag: TypeTag): Eval<bool>
  {
    match e
    case Throw(x) => Throw(x)
    case Ok(v) => Ok(TypeOf(v) == tag)
  }

  /** `a && b`: `b` only matters when `a` completed with true. */
  function And(a: Eval<bool>, b: Eval<bool>): Eval<bool>
  {
    match a
    case Throw(_) => a
    case Ok(x) => if x then b else Ok(false)
  }

  /** `a || b`: `b` only matters when `a` completed with false. */
  function Or(a: Eval<bool>, b: Eval<bool>): Eval<bool>
  {
    match a
    case Throw(_) => a
    case Ok(x) => if x then Ok(true) else b
  }

  /** JavaScript truthiness of a JSON value. */
  predicate Truthy(v: Value)
  {
    match v
    case Undefined => false
    case Null => false
    case Bool(b) => b
    case Num(n) => n != 0.0
    case Str(s) => s != ""
    case Arr(_) => true
    case Obj(_) => true
  }

  /** `xs.map(f)`: elements are visited in order and the first throw escapes. */
  function MapEval<T, U>(xs: seq<T>, f: T -> Eval<U>): (r: Eval<seq<U>>)
    ensures r.Throw? <==> exists i :: 0 <= i < |xs| && f(xs[i]).Throw?
    ensures r.Ok? ==> |r.value| == |xs|
    ensures r.Ok? ==> forall i :: 0 <= i < |xs| ==> f(xs[i]) == Ok(r.value[i])
  {
    if |xs| == 0 then Ok([])
    else
      match f(xs[0])
      case Throw(x) => Throw(x)
      case Ok(y) =>
        match MapEval(xs[1..], f)
        case Throw(x) =>
          assert exists i :: 0 <= i < |xs[1..]| && f(xs[1..][i]).Throw?;
          Throw(x)
        case Ok(ys) => Ok([y] + ys)
  }

  /** The elements a filter callback keeps: those it returns true for. */
  function Kept<T>(p: T -> Eval<bool>): T -> bool
  {
    x => p(x) == Ok(true)
  }

  /** `xs.filter(p)` with a callback that may throw: the whole call throws as
      soon as one callback does; otherwise the elements whose callback returned
      true are kept, in order. */
  function FilterEval<T>(xs: seq<T>, p: T -> Eval<bool>): (r: Eval<seq<T>>)
    ensures r.Throw? <==> exists i :: 0 <= i < |xs| && p(xs[i]).Throw?
    ensures r.Ok? ==> r.value == Seqs.Filter(xs, Kept(p))
  {
    if |xs| == 0 then Ok([])
    else
      match p(xs[0])
      case Throw(x) => Throw(x)
      case Ok(keep) =>
        match FilterEval(xs[1..], p)
        case Throw(x) =>
          assert exists i :: 0 <= i < |xs[1..]| && p(xs[1..][i]).Throw?;
          Throw(x)
        case Ok(ys) => if keep then Ok([xs[0]] + ys) else Ok(ys)
  }

  /** A JavaScript number as produced by arithmetic: finite, an infinity, or NaN. */
  datatype Number = Finite(r: real) | PosInf | NegInf | NaN

  /** `a / b` on finite operands: division by zero gives a signed infinity,
      or NaN for `0 / 0`. */
  function Div(a: real, b: real): (r: Number)
    ensures b != 0.0 ==> r == Finite(a / b)
    ensures r.NaN? <==> a == 0.0 && b == 0.0
  {
    if b != 0.0 then Finite(a / b)
    else if a > 0.0 then PosInf
    else if a < 0.0 then NegInf
    else NaN
  }

  /** `x - f` for a finite `f`. */
  function Minus(x: Number, f: real): Number
  {
    match x
    case Finite(a) => Finite(a - f)
    case PosInf => PosInf
    case NegInf => NegInf
    case NaN => NaN
  }

  /** `a > b`: false whenever either side is NaN. */
  predicate Gt(a: Number, b: Number)
  {
    match a
    case NaN => false
    case NegInf => false
    case PosInf => b.Finite? || b.NegInf?
    case Finite(x) => b.NegInf? || (b.Finite? && x > b.r)
  }

  /** Without NaN, `>` is a strict total order; with NaN it is still irreflexive. */
  lemma GtOrder(a: Number, b: Number, c: Number)
    ensures !Gt(a, a)
    ensures Gt(a, b) ==> !Gt(b, a)
    ensures Gt(a, b) && Gt(b, c) ==> Gt(a, c)
    ensures !a.NaN? && !b.NaN? ==> Gt(a, b) || Gt(b, a) || a == b
  {
  }
}
