/** Values and comparisons of the Lua virtual machine, for the subset of the
    language that the expression compiler is verified on. */
module LuaValue {
  import opened Options

  /** A lua_Number: numbers are kept abstract except that NaN is visible,
      because no comparison with NaN holds. */
  datatype Num = NaN | Fin(r: real)

  datatype Value = Nil | Boolean(b: bool) | Number(n: Num)

  /** l_isfalse: nil and false are the only false values. */
  predicate IsFalse(v: Value) {
    v.Nil? || v == Boolean(false)
  }

  /** The three comparison opcodes of the machine. */
  datatype CmpOp = OpEq | OpLt | OpLe

  /** equalobj, luaV_lessthan and lessequal without metamethods; None is the
      order error raised for operands that are not both numbers. */
  function Compare(op: CmpOp, x: Value, y: Value): Option<bool> {
    match op
    case OpEq => Some(x == y && x != Number(NaN))
    case OpLt =>
      if x.Number? && y.Number?
      then Some(x.n.Fin? && y.n.Fin? && x.n.r < y.n.r) else None
    case OpLe =>
      if x.Number? && y.Number?
      then Some(x.n.Fin? && y.n.Fin? && x.n.r <= y.n.r) else None
  }

  // ---------------------------------------------------------------------
  // What the comparisons decide

  /** The relation holds of two values; an order error is no holding. */
  predicate Holds(op: CmpOp, x: Value, y: Value) {
    Compare(op, x, y) == Some(true)
  }

  function Finite(r: real): Value {
    Number(Fin(r))
  }

  /** The order of finite numbers is the order of the reals. */
  lemma OrderOfReals(x: real, y: real)
    ensures Compare(OpLt, Finite(x), Finite(y)) == Some(x < y)
    ensures Compare(OpEq, Finite(x), Finite(y)) == Some(x == y)
    ensures Holds(OpLe, Finite(x), Finite(y)) <==>
              Holds(OpLt, Finite(x), Finite(y)) || Holds(OpEq, Finite(x), Finite(y))
  {
  }

  /** Exactly one of less, equal and greater holds of finite numbers. */
  lemma Trichotomy(x: real, y: real)
    ensures var l, e, g := Holds(OpLt, Finite(x), Finite(y)), Holds(OpEq, Finite(x), Finite(y)),
                           Holds(OpLt, Finite(y), Finite(x));
            (l || e || g) && !(l && e) && !(l && g) && !(e && g)
  {
  }

  /** Every relation is transitive, for all values. */
  lemma Transitive(op: CmpOp, x: Value, y: Value, z: Value)
    requires Holds(op, x, y) && Holds(op, y, z)
    ensures Holds(op, x, z)
  {
  }

  /** No comparison with NaN holds. */
  lemma NothingWithNaN(op: CmpOp, v: Value)
    ensures !Holds(op, Number(NaN), v) && !Holds(op, v, Number(NaN))
  {
  }

  /** The order error is raised exactly if an operand is no number; equality
      never raises it, and values of different types are not equal. */
  lemma ErrorsExactly(op: CmpOp, x: Value, y: Value)
    ensures Compare(op, x, y).None? <==> op != OpEq && !(x.Number? && y.Number?)
    ensures !x.Number? || !y.Number? ==> (Holds(OpEq, x, y) <==> x == y)
  {
  }

  /** Of all values, nil and false alone count as false. */
  lemma TruthTable(b: bool, n: Num)
    ensures IsFalse(Nil) && IsFalse(Boolean(false)) && !IsFalse(Boolean(true)) && !IsFalse(Number(n))
  {
  }
}
