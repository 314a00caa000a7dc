/** Python values as the core sees them: results of tagged attributes, table
    cells, raised exceptions, and the arithmetic and comparisons the core
    applies to them (NaN-aware, as CPython floats behave). */
module Values {

  datatype Option<+T> = None | Some(value: T)

  datatype Result<+T, +E> = Ok(value: T) | Err(error: E)

  /** The exception classes the core raises or lets through. */
  datatype Error =
    | AttributeError
    | TypeError
    | ValueError
    | KeyError
    | IndexError
    | NameError
    | NotImplementedError
    | ZeroDivisionError
    | RecursionError
    | AssertionError
    | Foreign(name: string)   // raised inside a library this model does not see

  /** One cell of a data table (a pandas/numpy element). */
  datatype Cell = Text(s: string) | Int(i: int) | Real(r: real)

  /** Python's `==` on cells: numbers compare by value across int and float. */
  predicate CellEq(a: Cell, b: Cell)
  {
    match (a, b)
    case (Text(x), Text(y)) => x == y
    case (Int(x), Int(y)) => x == y
    case (Real(x), Real(y)) => x == y
    case (Int(x), Real(y)) => x as real == y
    case (Real(x), Int(y)) => x == y as real
    case _ => false
  }

  lemma CellEqReflexive(c: Cell)
    ensures CellEq(c, c)
  {
  }

  /** A pandas DataFrame reduced to what the core touches: column labels in
      order, the row index, and the rows of cells. */
  datatype Frame = Frame(columns: seq<string>, index: seq<Cell>, rows: seq<seq<Cell>>)

  /** A Python value returned by a tagged attribute or a transfer rule. */
  datatype PyVal =
    | Num(r: real)            // int or float
    | NaN                     // float('nan')
    | Bool(b: bool)
    | Str(s: string)
    | Row(cells: seq<Cell>)   // one data instance as a numpy row
    | Table(frame: Frame)     // a DataFrame
    | Items(items: seq<PyVal>) // a list or tuple
    | NoneVal

  /** Python `len(v)`; values without a length raise TypeError. */
  function PyLen(v: PyVal): (r: Result<nat, Error>)
    ensures r.Err? <==> !(v.Row? || v.Table? || v.Items? || v.Str?)
    ensures v.Items? ==> r == Ok(|v.items|)
    ensures v.Table? ==> r == Ok(|v.frame.rows|)
    ensures v.Row? ==> r == Ok(|v.cells|)
    ensures v.Str? ==> r == Ok(|v.s|)
  {
    match v
    case Row(cells) => Ok(|cells|)
    case Table(f) => Ok(|f.rows|)
    case Items(xs) => Ok(|xs|)
    case Str(s) => Ok(|s|)
    case _ => Err(TypeError)
  }

  type Outcome = Result<PyVal, Error>

  /** The numeric reading of a value in arithmetic (`bool` is an `int`). */
  function NumericOf(v: PyVal): (r: Option<real>)
    ensures r.Some? <==> v.Num? || v.Bool?
  {
    match v
    case Num(x) => Some(x)
    case Bool(b) => Some(if b then 1.0 else 0.0)
    case _ => None
  }

  /** Python `a + b` on numbers: NaN is absorbing, anything else is a TypeError. */
  function PyAdd(a: PyVal, b: PyVal): (r: Outcome)
    ensures r.Ok? <==> (a.NaN? || NumericOf(a).Some?) && (b.NaN? || NumericOf(b).Some?)
    ensures r.Ok? ==> (r.value == NaN <==> a.NaN? || b.NaN?)
    ensures r.Ok? && !a.NaN? && !b.NaN? ==> r.value == Num(NumericOf(a).value + NumericOf(b).value)
  {
    if !(a.NaN? || NumericOf(a).Some?) || !(b.NaN? || NumericOf(b).Some?) then Err(TypeError)
    else if a.NaN? || b.NaN? then Ok(NaN)
    else Ok(Num(NumericOf(a).value + NumericOf(b).value))
  }

  /** Python `v / n` for a positive integer `n`. */
  function PyDivBy(v: PyVal, n: nat): (r: Outcome)
    requires n > 0
    ensures r.Ok? <==> v.NaN? || NumericOf(v).Some?
    ensures r.Ok? && v.NaN? ==> r.value == NaN
    ensures r.Ok? && !v.NaN? ==> r.value == Num(NumericOf(v).value / n as real)
  {
    if v.NaN? then Ok(NaN)
    else if NumericOf(v).Some? then Ok(Num(NumericOf(v).value / n as real))
    else Err(TypeError)
  }

  /** Python `a > b`: every comparison with NaN is false; non-numbers raise. */
  function PyGreater(a: PyVal, b: PyVal): (r: Result<bool, Error>)
    ensures r.Ok? <==> (a.NaN? || NumericOf(a).Some?) && (b.NaN? || NumericOf(b).Some?)
    ensures r == Ok(true) <==> NumericOf(a).Some? && NumericOf(b).Some? && NumericOf(a).value > NumericOf(b).value
  {
    if !(a.NaN? || NumericOf(a).Some?) || !(b.NaN? || NumericOf(b).Some?) then Err(TypeError)
    else if a.NaN? || b.NaN? then Ok(false)
    else Ok(NumericOf(a).value > NumericOf(b).value)
  }

  /** Python `1 / v`: dividing by zero raises, NaN stays NaN. */
  function PyReciprocal(v: PyVal): (r: Outcome)
    ensures v.NaN? ==> r == Ok(NaN)
    ensures NumericOf(v) == Some(0.0) ==> r == Err(ZeroDivisionError)
    ensures NumericOf(v).Some? && NumericOf(v).value != 0.0 ==> r == Ok(Num(1.0 / NumericOf(v).value))
    ensures !v.NaN? && NumericOf(v).None? ==> r == Err(TypeError)
  {
    if v.NaN? then Ok(NaN)
    else if NumericOf(v).None? then Err(TypeError)
    else if NumericOf(v).value == 0.0 then Err(ZeroDivisionError)
    else Ok(Num(1.0 / NumericOf(v).value))
  }

  /** Python `base ** exponent` for a float exponent; `pow` stands for the
      floating-point power of two finite numbers. */
  function PyPow(base: PyVal, exponent: real, pow: (real, real) -> real): (r: Outcome)
    ensures base.NaN? ==> r == Ok(NaN)
    ensures NumericOf(base).Some? ==> r == Ok(Num(pow(NumericOf(base).value, exponent)))
    ensures !base.NaN? && NumericOf(base).None? ==> r == Err(TypeError)
  {
    if base.NaN? then Ok(NaN)
    else if NumericOf(base).None? then Err(TypeError)
    else Ok(Num(pow(NumericOf(base).value, exponent)))
  }
}
