/** The query engine's result coercion: query/query.go. The lisp interpreter is
    an arbitrary function from the query text to an outcome. */
module Engine {
  import opened Text

  /** The value a query evaluates to */
  datatype Sexp =
    | SexpBool(val: bool)
    | SexpStr(s: string)
    | SexpInt(n: int)
    | SexpFloat
    | SexpHash
    | SexpArray
    | SexpSentinel
    | SexpOther(goType: string)

  /** How an evaluation can fail, by the place it fails at */
  datatype Failure =
    | BadNodeMeta(text: string)
    | SyntaxError(text: string)
    | IterationLimit(iters: nat)
    | RunError(text: string)

  datatype Outcome =
    | Fails(failure: Failure)
    | Yields(expr: Sexp, display: string)

  /** One node's interpreter with its facts and classes loaded */
  type Interpreter = string -> Outcome

  datatype Result = Result(isTrue: bool, boolish: bool, kind: string, display: string)

  datatype Evaluated<T> = Value(value: T) | Error(text: string)

  /** The text Parse returns; only the node meta error is passed on bare */
  function ErrorText(q: string, f: Failure): string {
    match f
    case BadNodeMeta(t) => t
    case SyntaxError(t) => "error parsing query [" + q + "]: " + t
    case IterationLimit(n) => "query [" + q + "]: iterations limit exceeded: " + Itoa(n)
    case RunError(t) => "error running query [" + q + "]: " + t
  }

  function NewResult(expr: Sexp, display: string): Result {
    match expr
    case SexpBool(b) => Result(b, true, "bool", display)
    case SexpStr(s) => Result(|s| > 0, true, "string", display)
    case SexpInt(n) => Result(n > 0, true, "int", display)
    case SexpFloat => Result(false, false, "float", display)
    case SexpHash => Result(false, false, "hash", display)
    case SexpArray => Result(false, false, "array", display)
    case SexpSentinel => Result(false, false, "nil", display)
    case SexpOther(t) => Result(false, false, t, display)
  }

  function Parse(interp: Interpreter, q: string): Evaluated<Result> {
    match interp(q)
    case Fails(f) => Error(ErrorText(q, f))
    case Yields(expr, display) => Value(NewResult(expr, display))
  }

  function ParseBool(interp: Interpreter, q: string): Evaluated<bool> {
    match Parse(interp, q)
    case Error(t) => Error(t)
    case Value(res) =>
      if !res.boolish then
        Error("query return type " + res.display + " not supported, make your query return bool (or string/int > 0)")
      else Value(res.isTrue)
  }

  /** The documented coercion, said without the result record: true, a non-empty
      string or a positive number. */
  predicate Truthy(expr: Sexp) {
    expr == SexpBool(true) || (expr.SexpStr? && expr.s != "") || (expr.SexpInt? && expr.n > 0)
  }

  predicate Filterable(expr: Sexp) {
    expr.SexpBool? || expr.SexpStr? || expr.SexpInt?
  }

  lemma ParseBoolMeaning(interp: Interpreter, q: string)
    ensures ParseBool(interp, q) == Value(true) <==> interp(q).Yields? && Truthy(interp(q).expr)
    ensures ParseBool(interp, q) == Value(false) <==>
              interp(q).Yields? && Filterable(interp(q).expr) && !Truthy(interp(q).expr)
    ensures ParseBool(interp, q).Error? <==> interp(q).Fails? || !Filterable(interp(q).expr)
  {
    if interp(q).Yields? { var r := NewResult(interp(q).expr, interp(q).display); }
  }

  /** The type names a query result is reported under */
  function KindText(expr: Sexp): string {
    match expr
    case SexpBool(_) => "bool"
    case SexpStr(_) => "string"
    case SexpInt(_) => "int"
    case SexpFloat => "float"
    case SexpHash => "hash"
    case SexpArray => "array"
    case SexpSentinel => "nil"
    case SexpOther(t) => t
  }

  lemma ResultMeaning(expr: Sexp, display: string)
    ensures NewResult(expr, display) == Result(Truthy(expr), Filterable(expr), KindText(expr), display)
  {
  }
}
