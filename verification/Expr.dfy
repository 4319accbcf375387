/** Source expressions and their meaning (section 2.5.3 of the Lua 5.1
    Reference Manual), without any reference to generated code. */
module Expr {
  import opened Options
  import opened LuaValue
  import opened Bytecode

  datatype BinCmp = Eq | Ne | Lt | Le | Gt | Ge

  datatype Expr =
    | ENil
    | ETrue
    | EFalse
    | ENum(n: real)
    | ELocal(x: int)
    | ENot(e: Expr)
    | EAnd(a: Expr, b: Expr)
    | EOr(a: Expr, b: Expr)
    | ECmp(op: BinCmp, a: Expr, b: Expr)

  /** Every local variable lives in a register below n. */
  predicate Scoped(e: Expr, n: int) {
    match e
    case ELocal(x) => 0 <= x < n
    case ENot(e1) => Scoped(e1, n)
    case EAnd(a, b) => Scoped(a, n) && Scoped(b, n)
    case EOr(a, b) => Scoped(a, n) && Scoped(b, n)
    case ECmp(_, a, b) => Scoped(a, n) && Scoped(b, n)
    case _ => true
  }

  /** The meaning of a comparison; None is an order error. */
  function CompareValues(op: BinCmp, x: Value, y: Value): Option<bool> {
    match op
    case Eq => Compare(OpEq, x, y)
    case Ne => Some(!Compare(OpEq, x, y).value)
    case Lt => Compare(OpLt, x, y)
    case Le => Compare(OpLe, x, y)
    case Gt => Compare(OpLt, y, x)
    case Ge => Compare(OpLe, y, x)
  }

  /** The meaning of an expression; None is an order error. */
  function Eval(e: Expr, r: Regs): Option<Value> {
    match e
    case ENil => Some(Nil)
    case ETrue => Some(Boolean(true))
    case EFalse => Some(Boolean(false))
    case ENum(n) => Some(Number(Fin(n)))
    case ELocal(x) => Some(Get(r, x))
    case ENot(e1) =>
      var v := Eval(e1, r);
      if v.None? then None else Some(Boolean(IsFalse(v.value)))
    case EAnd(a, b) =>
      var v := Eval(a, r);
      if v.None? || IsFalse(v.value) then v else Eval(b, r)
    case EOr(a, b) =>
      var v := Eval(a, r);
      if v.None? || !IsFalse(v.value) then v else Eval(b, r)
    case ECmp(op, a, b) =>
      var x, y := Eval(a, r), Eval(b, r);
      if x.None? || y.None? then None
      else match CompareValues(op, x.value, y.value)
           case None => None
           case Some(t) => Some(Boolean(t))
  }
}
