/** What small compiled functions return, said without the compiler, the
    machine or the evaluator: in terms of reals, truth and identity. */
module CodeGenMeaning {
  import opened Options
  import opened LuaValue
  import opened Bytecode
  import opened Expr
  import opened CodeGen
  import opened Delivery
  import opened DeliveryExact
  import opened CodeGenTheorems

  /** The arguments of a call. */
  function Args(vs: seq<Value>): Regs {
    map i | 0 <= i < |vs| :: vs[i]
  }

  lemma ArgsFresh(vs: seq<Value>)
    ensures Fresh(Args(vs), |vs|) && forall i :: 0 <= i < |vs| ==> Get(Args(vs), i) == vs[i]
  {
  }

  /** The end of a call of `function (x, y) return e end`, after n turns. */
  function Call(e: Expr, vs: seq<Value>, n: nat): Machine {
    var fs := CompileReturn(NewFunction(|vs|), e);
    Run(fs.code, fs.k, Running(0, Args(vs)), n)
  }

  /** The operators of section 2.5.2 of the Lua 5.1 Reference Manual on
      numbers. */
  predicate Related(op: BinCmp, x: real, y: real) {
    match op
    case Eq => x == y
    case Ne => x != y
    case Lt => x < y
    case Le => x <= y
    case Gt => x > y
    case Ge => x >= y
  }

  lemma ComparisonSafe(op: BinCmp, a: Expr, b: Expr)
    requires (a.ELocal? || a.ENum?) && (b.ELocal? || b.ENum?)
    ensures Safe(ECmp(op, a, b), [])
  {
  }

  /** `return x op y` on finite numbers. */
  lemma ReturnComparison(op: BinCmp, x: real, y: real) returns (n: nat)
    ensures Call(ECmp(op, ELocal(0), ELocal(1)), [Finite(x), Finite(y)], n) == Done(Boolean(Related(op, x, y)))
  {
    hide CompileReturn, Run, Safe;
    var e, vs := ECmp(op, ELocal(0), ELocal(1)), [Finite(x), Finite(y)];
    ArgsFresh(vs);
    ComparisonSafe(op, ELocal(0), ELocal(1));
    n := ReturnCorrect(2, e, Args(vs));
  }

  /** `return x op c` with a constant, which becomes an operand. */
  lemma ReturnWithConstant(op: BinCmp, x: real, c: real) returns (n: nat)
    ensures Call(ECmp(op, ELocal(0), ENum(c)), [Finite(x)], n) == Done(Boolean(Related(op, x, c)))
  {
    hide CompileReturn, Run, Safe;
    var e, vs := ECmp(op, ELocal(0), ENum(c)), [Finite(x)];
    ArgsFresh(vs);
    ComparisonSafe(op, ELocal(0), ENum(c));
    n := ReturnCorrect(1, e, Args(vs));
  }

  /** With NaN on either side only ~= holds. */
  lemma ReturnNaN(op: BinCmp, u: Num, v: Num) returns (n: nat)
    requires u.NaN? || v.NaN?
    ensures Call(ECmp(op, ELocal(0), ELocal(1)), [Number(u), Number(v)], n) == Done(Boolean(op == Ne))
  {
    hide CompileReturn, Run, Safe;
    var e, vs := ECmp(op, ELocal(0), ELocal(1)), [Number(u), Number(v)];
    ArgsFresh(vs);
    ComparisonSafe(op, ELocal(0), ELocal(1));
    n := ReturnCorrect(2, e, Args(vs));
  }

  /** Without numbers on both sides, == and ~= tell identity, and the order
      operators raise an error. */
  lemma ReturnMixed(op: BinCmp, x: Value, y: Value) returns (n: nat)
    requires !x.Number? || !y.Number?
    ensures Call(ECmp(op, ELocal(0), ELocal(1)), [x, y], n) ==
            if op == Eq then Done(Boolean(x == y)) else if op == Ne then Done(Boolean(x != y)) else Error
  {
    hide CompileReturn, Run, Safe;
    var e, vs := ECmp(op, ELocal(0), ELocal(1)), [x, y];
    ArgsFresh(vs);
    ComparisonSafe(op, ELocal(0), ELocal(1));
    n := ReturnCorrect(2, e, Args(vs));
  }

  /** nil and false, and nothing else. */
  predicate Falsy(v: Value) {
    v == Nil || v == Boolean(false)
  }

  lemma LogicSafe()
    ensures Safe(ENot(ELocal(0)), []) && Safe(EAnd(ELocal(0), ELocal(1)), []) && Safe(EOr(ELocal(0), ELocal(1)), [])
  {
  }

  /** `not` gives a boolean; `and` and `or` give one of their operands, the
      second one only if the first does not decide. */
  lemma ReturnLogic(x: Value, y: Value) returns (n: nat, a: nat, o: nat)
    ensures Call(ENot(ELocal(0)), [x], n) == Done(Boolean(Falsy(x)))
    ensures Call(EAnd(ELocal(0), ELocal(1)), [x, y], a) == Done(if Falsy(x) then x else y)
    ensures Call(EOr(ELocal(0), ELocal(1)), [x, y], o) == Done(if Falsy(x) then y else x)
  {
    hide CompileReturn, Run, Safe;
    ArgsFresh([x]);
    ArgsFresh([x, y]);
    LogicSafe();
    n := ReturnCorrect(1, ENot(ELocal(0)), Args([x]));
    a := ReturnCorrect(2, EAnd(ELocal(0), ELocal(1)), Args([x, y]));
    o := ReturnCorrect(2, EOr(ELocal(0), ELocal(1)), Args([x, y]));
  }

  /** `return true` and `return false`. */
  lemma ReturnBoolean() returns (t: nat, f: nat)
    ensures Call(ETrue, [], t) == Done(Boolean(true)) && Call(EFalse, [], f) == Done(Boolean(false))
  {
    hide CompileReturn, Run;
    ArgsFresh([]);
    t := ReturnCorrect(0, ETrue, Args([]));
    f := ReturnCorrect(0, EFalse, Args([]));
  }

  /** The operators on constants that need no run: what they fold to. */
  lemma ReturnConstant(c: real) returns (n: nat, t: nat, f: nat, k: nat)
    ensures Call(ENil, [], n) == Done(Nil) && Call(ENum(c), [], k) == Done(Finite(c))
    ensures Call(ENot(ENil), [], t) == Done(Boolean(true)) && Call(ENot(ENum(c)), [], f) == Done(Boolean(false))
  {
    hide CompileReturn, Run;
    ArgsFresh([]);
    n := ReturnCorrect(0, ENil, Args([]));
    k := ReturnCorrect(0, ENum(c), Args([]));
    t := ReturnCorrect(0, ENot(ENil), Args([]));
    f := ReturnCorrect(0, ENot(ENum(c)), Args([]));
  }

  /** An operand is evaluated only if it is needed, and the first error ends
      the evaluation: `nil < nil` raises one. */
  lemma ReturnShortCut(x: Value) returns (a: nat, o: nat)
    ensures Call(EAnd(ELocal(0), ECmp(Lt, ENil, ENil)), [x], a) == if Falsy(x) then Done(x) else Error
    ensures Call(EOr(ELocal(0), ECmp(Lt, ENil, ENil)), [x], o) == if Falsy(x) then Error else Done(x)
  {
    hide CompileReturn, Run;
    var e1, e2 := EAnd(ELocal(0), ECmp(Lt, ENil, ENil)), EOr(ELocal(0), ECmp(Lt, ENil, ENil));
    ArgsFresh([x]);
    ShortCutSafe();
    hide Safe;
    var r := Args([x]);
    assert Eval(ENil, r) == Some(Nil) && Eval(ELocal(0), r) == Some(x);
    assert Eval(ECmp(Lt, ENil, ENil), r) == None;
    a := ReturnCorrect(1, e1, Args([x]));
    o := ReturnCorrect(1, e2, Args([x]));
  }

  lemma ShortCutSafe()
    ensures Safe(EAnd(ELocal(0), ECmp(Lt, ENil, ENil)), []) && Safe(EOr(ELocal(0), ECmp(Lt, ENil, ENil)), [])
  {
    hide BeforeRight, NoCode, Constants;
    forall h, K ensures FlagsOf(ECmp(Lt, ENil, ENil), h, K).safe { NilSafe(h, K); }
    assert ShapeOf(ELocal(0)) == SLocal(0) && FlagsOf(ELocal(0), false, []).safe;
  }

  lemma NilSafe(held: bool, K: seq<Value>)
    ensures FlagsOf(ECmp(Lt, ENil, ENil), held, K).safe
  {
    hide BeforeRight, NoCode, Constants;
    assert forall h, K1 :: FlagsOf(ENil, h, K1).safe;
  }
}
