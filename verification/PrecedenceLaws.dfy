/** How expressions group, by the order of section 2.5.6 of the Lua 5.1
    Reference Manual. */
module PrecedenceLaws {
  import opened Options
  import opened Precedence

  /** From lower to higher: or, and, the comparisons, .., + and -, the
      multiplications, the unary operators, ^. */
  function Level(op: BinOp): nat {
    match op
    case Or => 1
    case And => 2
    case Lt => 3 case Gt => 3 case Le => 3 case Ge => 3 case Ne => 3 case Eq => 3
    case Concat => 4
    case Add => 5 case Sub => 5
    case Mul => 6 case Div => 6 case Mod => 6
    case Pow => 8
  }

  const UNARY_LEVEL := 7

  /** `..` and `^` group to the right, the other operators to the left. */
  predicate ToTheRight(op: BinOp) {
    op == Concat || op == Pow
  }

  /** Between op1 and op2 the operand in the middle belongs to op2. */
  predicate SecondFirst(op1: BinOp, op2: BinOp) {
    Level(op2) > Level(op1) || (Level(op2) == Level(op1) && ToTheRight(op2))
  }

  /** All that the parser asks of its priority table. */
  lemma TableIs(op1: BinOp, op2: BinOp)
    ensures Left(op2) > Right(op1) <==> SecondFirst(op1, op2)
    ensures Left(op2) > UNARY <==> Level(op2) > UNARY_LEVEL
    ensures Left(op2) > 0
  {
  }

  /** `a op1 b op2 c` */
  lemma BinaryGroups(op1: BinOp, op2: BinOp, a: int, b: int, c: int)
    ensures SubExpr([Atom(a), BinToken(op1), Atom(b), BinToken(op2), Atom(c)], 0, 0) ==
            Ok(if SecondFirst(op1, op2) then Binary(op1, Leaf(a), Binary(op2, Leaf(b), Leaf(c)))
               else Binary(op2, Binary(op1, Leaf(a), Leaf(b)), Leaf(c)), 5)
  {
    hide SubExpr;
    TableIs(op1, op2);
    var t, x, y := [Atom(a), BinToken(op1), Atom(b), BinToken(op2), Atom(c)], Binary(op1, Leaf(a), Leaf(b)),
                   Binary(op2, Leaf(b), Leaf(c));
    Operands(op1, a, b);
    Operands(op2, b, c);
    if SecondFirst(op1, op2) {
      assert Allowed(Binary(op1, Leaf(a), y));
      assert Flat(Binary(op1, Leaf(a), y)) == t;
      OneTree(t, Binary(op1, Leaf(a), y));
    } else {
      assert Allowed(Binary(op2, x, Leaf(c)));
      assert Flat(Binary(op2, x, Leaf(c))) == t;
      OneTree(t, Binary(op2, x, Leaf(c)));
    }
  }

  lemma Operands(op: BinOp, a: int, b: int)
    ensures var e := Binary(op, Leaf(a), Leaf(b));
            && Allowed(e) && Flat(e) == [Atom(a), BinToken(op), Atom(b)]
            && (forall n: nat :: EndsBefore(e, n) <==> n <= Right(op))
            && (forall n: nat :: Above(e, n) <==> Left(op) > n)
  {
  }

  lemma Operand(u: UnOp, a: int)
    ensures var e := Unary(u, Leaf(a));
            && Allowed(e) && Flat(e) == [UnToken(u), Atom(a)] && (forall n: nat :: EndsBefore(e, n) <==> n <= UNARY)
            && forall n: nat :: Above(e, n)
  {
  }

  /** `-a op b` and `a op -b`, for any unary operator */
  lemma UnaryGroups(u: UnOp, op: BinOp, a: int, b: int)
    ensures SubExpr([UnToken(u), Atom(a), BinToken(op), Atom(b)], 0, 0) ==
            Ok(if Level(op) > UNARY_LEVEL then Unary(u, Binary(op, Leaf(a), Leaf(b)))
               else Binary(op, Unary(u, Leaf(a)), Leaf(b)), 4)
    ensures SubExpr([Atom(a), BinToken(op), UnToken(u), Atom(b)], 0, 0) ==
            Ok(Binary(op, Leaf(a), Unary(u, Leaf(b))), 4)
  {
    hide SubExpr;
    TableIs(op, op);
    Operands(op, a, b);
    Operand(u, a);
    Operand(u, b);
    var t, t' := [UnToken(u), Atom(a), BinToken(op), Atom(b)], [Atom(a), BinToken(op), UnToken(u), Atom(b)];
    if Level(op) > UNARY_LEVEL {
      assert Allowed(Unary(u, Binary(op, Leaf(a), Leaf(b))));
      assert Flat(Unary(u, Binary(op, Leaf(a), Leaf(b)))) == t;
      OneTree(t, Unary(u, Binary(op, Leaf(a), Leaf(b))));
    } else {
      assert Allowed(Binary(op, Unary(u, Leaf(a)), Leaf(b)));
      assert Flat(Binary(op, Unary(u, Leaf(a)), Leaf(b))) == t;
      OneTree(t, Binary(op, Unary(u, Leaf(a)), Leaf(b)));
    }
    assert Allowed(Binary(op, Leaf(a), Unary(u, Leaf(b))));
    assert Flat(Binary(op, Leaf(a), Unary(u, Leaf(b)))) == t';
    OneTree(t', Binary(op, Leaf(a), Unary(u, Leaf(b))));
  }

  /** Parentheses come before everything. */
  lemma ParensGroup(op1: BinOp, op2: BinOp, a: int, b: int, c: int)
    ensures SubExpr([LPar, Atom(a), BinToken(op1), Atom(b), RPar, BinToken(op2), Atom(c)], 0, 0) ==
            Ok(Binary(op2, Paren(Binary(op1, Leaf(a), Leaf(b))), Leaf(c)), 7)
    ensures SubExpr([Atom(a), BinToken(op1), LPar, Atom(b), BinToken(op2), Atom(c), RPar], 0, 0) ==
            Ok(Binary(op1, Leaf(a), Paren(Binary(op2, Leaf(b), Leaf(c)))), 7)
  {
    hide SubExpr;
    var t, e := [LPar, Atom(a), BinToken(op1), Atom(b), RPar, BinToken(op2), Atom(c)],
                Binary(op2, Paren(Binary(op1, Leaf(a), Leaf(b))), Leaf(c));
    var t', e' := [Atom(a), BinToken(op1), LPar, Atom(b), BinToken(op2), Atom(c), RPar],
                  Binary(op1, Leaf(a), Paren(Binary(op2, Leaf(b), Leaf(c))));
    Operands(op1, a, b);
    Operands(op2, b, c);
    assert Flat(Paren(Binary(op1, Leaf(a), Leaf(b)))) == [LPar, Atom(a), BinToken(op1), Atom(b), RPar];
    assert Flat(Paren(Binary(op2, Leaf(b), Leaf(c)))) == [LPar, Atom(b), BinToken(op2), Atom(c), RPar];
    assert Flat(e) == t && |t| == 7 && Flat(e') == t' && |t'| == 7;
    assert Allowed(Paren(Binary(op1, Leaf(a), Leaf(b)))) && Allowed(Paren(Binary(op2, Leaf(b), Leaf(c))));
    assert Allowed(e) && Allowed(e');
    OneTree(t, e);
    OneTree(t', e');
  }

  /** Of a tree without parentheses, exactly the operands that the order of the
      operators would take apart are printed in parentheses. */
  lemma ParensByLevel(op: BinOp, l: Tree, r: Tree)
    requires NoParens(l) && NoParens(r)
    ensures Fix(Binary(op, l, r)).l.Paren? <==>
            (l.Binary? && SecondFirst(l.op, op)) || (l.Unary? && Level(op) > UNARY_LEVEL)
    ensures Fix(Binary(op, l, r)).r.Paren? <==> r.Binary? && !SecondFirst(op, r.op)
  {
    EndsTop(l, op);
    AboveTop(r, Right(op));
    if l.Binary? { TableIs(l.op, op); }
    if r.Binary? { TableIs(op, r.op); }
    TableIs(op, op);
  }

  lemma UnaryParensByLevel(u: UnOp, x: Tree)
    requires NoParens(x)
    ensures Fix(Unary(u, x)).e.Paren? <==> x.Binary? && Level(x.op) < UNARY_LEVEL
  {
    AboveTop(x, UNARY);
    if x.Binary? { TableIs(x.op, x.op); }
  }
}
