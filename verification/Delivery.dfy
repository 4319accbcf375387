/** The value that compiled code delivers, as a function of the source
    expression alone.

    It differs from the meaning of the expression in one way. A jump that
    leaves a test with its operand's value and lands on the first
    instruction of the next operand is neutralised when that instruction is
    emitted. If the next operand is the constant `false` before `and`, or
    `true` before `or`, luaK_goiftrue and luaK_goiffalse emit only a jump,
    and luaK_jump takes the pending jumps over with the values they hold. */
module Delivery {
  import opened Options
  import opened LuaValue
  import opened Bytecode
  import opened Expr

  /** How a run leaves the code of an expression: by the true list, by the
      false list, with a value in hand, or with an error. A jump may carry a
      value; a run that arrives by a waiting jump holds its value. */
  datatype Way =
    | TrueExit(cv: Option<Value>)
    | FalseExit(cv: Option<Value>)
    | Through(v: Value, held: Option<Value>)
    | Failed

  datatype Shape = SNil | STrue | SFalse | SNum(n: real) | SLocal(x: int) | SJmp | SReloc

  /** The kind of descriptor an expression ends with. */
  function ShapeOf(e: Expr): Shape {
    match e
    case ENil => SNil
    case ETrue => STrue
    case EFalse => SFalse
    case ENum(n) => SNum(n)
    case ELocal(x) => SLocal(x)
    case EAnd(_, b) => ShapeOf(b)
    case EOr(_, b) => ShapeOf(b)
    case ECmp(_, _, _) => SJmp
    case ENot(a) =>
      match ShapeOf(a)
      case SNil => STrue
      case SFalse => STrue
      case STrue => SFalse
      case SNum(_) => SFalse
      case SJmp => SJmp
      case _ => SReloc
  }

  predicate IsConstant(s: Shape) {
    s.SNil? || s.STrue? || s.SFalse? || s.SNum?
  }

  function Constant(s: Shape): Value
    requires IsConstant(s)
  {
    match s
    case SNil => Nil
    case STrue => Boolean(true)
    case SFalse => Boolean(false)
    case SNum(n) => Number(Fin(n))
  }

  /** luaK_goiftrue emits no jump for these. */
  predicate AlwaysTrue(s: Shape) {
    s.STrue? || s.SNum?
  }

  /** luaK_goiffalse emits no jump for these. */
  predicate AlwaysFalse(s: Shape) {
    s.SNil? || s.SFalse?
  }

  /** Which of the two patch lists is not empty. */
  function Lists(e: Expr): (bool, bool) {
    match e
    case EAnd(a, b) => (Lists(b).0, Lists(b).1 || Lists(a).1 || !AlwaysTrue(ShapeOf(a)))
    case EOr(a, b) => (Lists(b).0 || Lists(a).0 || !AlwaysFalse(ShapeOf(a)), Lists(b).1)
    case ENot(a) => (Lists(a).1, Lists(a).0)
    case _ => (false, false)
  }

  predicate Plain(e: Expr) {
    Lists(e) == (false, false)
  }

  function WithConstant(K: seq<Value>, v: Value): seq<Value> {
    if v in K then K else K + [v]
  }

  /** An operand that needs no instruction: a local or a constant that fits. */
  predicate NoCode(a: Expr, K: seq<Value>) {
    Plain(a) && (ShapeOf(a).SLocal? || (IsConstant(ShapeOf(a)) && |K| <= MAXINDEXRK))
  }

  function OperandConstants(a: Expr, K: seq<Value>): seq<Value> {
    if Plain(a) && IsConstant(ShapeOf(a)) && |K| <= MAXINDEXRK then WithConstant(K, Constant(ShapeOf(a)))
    else if ShapeOf(a).SNum? then WithConstant(K, Constant(ShapeOf(a)))
    else K
  }

  /** The constant table after the expression has been compiled. */
  function Constants(e: Expr, K: seq<Value>): seq<Value>
    decreases e
  {
    match e
    case ENot(a) => Constants(a, K)
    case EAnd(a, b) => Constants(b, Constants(a, K))
    case EOr(a, b) =>
      var K1 := Constants(a, K);
      Constants(b, if ShapeOf(a).SNum? then WithConstant(K1, Constant(ShapeOf(a))) else K1)
    case ECmp(_, a, b) =>
      var K1 := Constants(a, K);
      var K2 := OperandConstants(a, K1);
      var K3 := Constants(b, K2);
      OperandConstants(b, K3)
    case _ => K
  }

  function BeforeRight(e: Expr, K: seq<Value>): seq<Value>
    requires e.EAnd? || e.EOr? || e.ECmp?
  {
    var K1 := Constants(e.a, K);
    match e
    case EAnd(_, _) => K1
    case EOr(a, _) => if ShapeOf(a).SNum? then WithConstant(K1, Constant(ShapeOf(a))) else K1
    case ECmp(_, a, _) => OperandConstants(a, K1)
  }

  /** exp2reg: the value stored for each way of leaving. */
  function Closed(w: Way): Option<Value> {
    match w
    case TrueExit(None) => Some(Boolean(true))
    case TrueExit(cv) => cv
    case FalseExit(None) => Some(Boolean(false))
    case FalseExit(cv) => cv
    case Through(v, _) => Some(v)
    case Failed => None
  }

  /** luaK_goiftrue: out by the false list, or on to the right operand
      (given as Through, with the value held on arrival there). */
  function IfTrue(s: Shape, w: Way): Way {
    match w
    case TrueExit(cv) => Through(Boolean(true), cv)
    case FalseExit(_) => w
    case Failed => w
    case Through(v, held) =>
      if AlwaysTrue(s) then w
      else if s.SFalse? then FalseExit(held)
      else if !IsFalse(v) then Through(v, None)
      else FalseExit(if s.SJmp? || s.SReloc? then None else Some(v))
  }

  /** luaK_goiffalse, likewise. */
  function IfFalse(s: Shape, w: Way): Way {
    match w
    case FalseExit(cv) => Through(Boolean(false), cv)
    case TrueExit(_) => w
    case Failed => w
    case Through(v, held) =>
      if AlwaysFalse(s) then w
      else if s.STrue? then TrueExit(held)
      else if IsFalse(v) then Through(v, None)
      else TrueExit(if s.SJmp? || s.SReloc? then None else Some(v))
  }

  /** codenot: the lists change places and lose their values. */
  function Negated(s: Shape, w: Way): Way {
    match w
    case TrueExit(_) => FalseExit(None)
    case FalseExit(_) => TrueExit(None)
    case Through(v, h) => Through(Boolean(IsFalse(v)), if IsConstant(s) then h else None)
    case Failed => Failed
  }

  /** How a run with registers r, arriving with `held`, leaves e. */
  function WayOf(e: Expr, r: Regs, held: Option<Value>, K: seq<Value>): Way
    decreases e
  {
    match e
    case ELocal(x) => Through(Get(r, x), held)
    case ENot(a) =>
      Negated(ShapeOf(a), WayOf(a, r, held, K))
    case EAnd(a, b) =>
      var w := IfTrue(ShapeOf(a), WayOf(a, r, held, K));
      if w.Through? then WayOf(b, r, w.held, BeforeRight(e, K)) else w
    case EOr(a, b) =>
      var w := IfFalse(ShapeOf(a), WayOf(a, r, held, K));
      if w.Through? then WayOf(b, r, w.held, BeforeRight(e, K)) else w
    case ECmp(op, a, b) =>
      var wa := WayOf(a, r, held, K);
      var h := if NoCode(a, Constants(a, K)) && wa.Through? then wa.held else None;
      var x := Closed(wa);
      if x.None? then Failed
      else
        var y := Closed(WayOf(b, r, h, BeforeRight(e, K)));
        if y.None? then Failed
        else (match CompareValues(op, x.value, y.value)
              case None => Failed
              case Some(t) => Through(Boolean(t), None))
    case _ => Through(Constant(ShapeOf(e)), held)
  }

  /** The value delivered by a run that starts the expression afresh. */
  function Delivered(e: Expr, r: Regs, K: seq<Value>): Option<Value> {
    Closed(WayOf(e, r, None, K))
  }

  lemma {:induction false} WayAgrees(e: Expr, r: Regs, r': Regs, held: Option<Value>, K: seq<Value>, n: int)
    requires Scoped(e, n) && forall i :: 0 <= i < n ==> Get(r, i) == Get(r', i)
    ensures WayOf(e, r, held, K) == WayOf(e, r', held, K)
    decreases e
  {
    match e
    case ENot(a) => WayAgrees(a, r, r', held, K, n);
    case EAnd(a, b) =>
      WayAgrees(a, r, r', held, K, n);
      var w := IfTrue(ShapeOf(a), WayOf(a, r, held, K));
      if w.Through? { WayAgrees(b, r, r', w.held, BeforeRight(e, K), n); }
    case EOr(a, b) =>
      WayAgrees(a, r, r', held, K, n);
      var w := IfFalse(ShapeOf(a), WayOf(a, r, held, K));
      if w.Through? { WayAgrees(b, r, r', w.held, BeforeRight(e, K), n); }
    case ECmp(op, a, b) =>
      WayAgrees(a, r, r', held, K, n);
      var wa := WayOf(a, r, held, K);
      var h := if NoCode(a, Constants(a, K)) && wa.Through? then wa.held else None;
      WayAgrees(b, r, r', h, BeforeRight(e, K), n);
    case _ =>
  }
}
