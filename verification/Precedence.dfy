/** Operator precedence: the recursive-descent parser of expressions and the
    trees that its priority table allows. */
module Precedence {
  import opened Options

  datatype BinOp = Add | Sub | Mul | Div | Mod | Pow | Concat | Ne | Eq | Lt | Le | Gt | Ge | And | Or
  datatype UnOp = Not | Minus | Len

  /** Tokens; "-" is both a unary and a binary operator. */
  datatype Token = Atom(id: int) | LPar | RPar | TMinus | TUnary(u: UnOp) | TBinary(b: BinOp) | Other(n: int)

  datatype Tree = Leaf(id: int) | Paren(e: Tree) | Unary(u: UnOp, e: Tree) | Binary(op: BinOp, l: Tree, r: Tree)

  /** getunopr */
  function GetUnOp(t: Token): Option<UnOp> {
    if t == TMinus then Some(Minus) else if t.TUnary? && t.u != Minus then Some(t.u) else None
  }

  /** getbinopr */
  function GetBinOp(t: Token): Option<BinOp> {
    if t == TMinus then Some(Sub) else if t.TBinary? && t.b != Sub then Some(t.b) else None
  }

  function UnToken(u: UnOp): (t: Token)
    ensures GetUnOp(t) == Some(u)
  {
    if u == Minus then TMinus else TUnary(u)
  }

  function BinToken(b: BinOp): (t: Token)
    ensures GetBinOp(t) == Some(b)
  {
    if b == Sub then TMinus else TBinary(b)
  }

  /** The priority table. */
  function Left(op: BinOp): nat {
    match op
    case Add => 6 case Sub => 6 case Mul => 7 case Div => 7 case Mod => 7
    case Pow => 10 case Concat => 5
    case Ne => 3 case Eq => 3 case Lt => 3 case Le => 3 case Gt => 3 case Ge => 3
    case And => 2 case Or => 1
  }

  function Right(op: BinOp): nat {
    match op
    case Pow => 9
    case Concat => 4
    case _ => Left(op)
  }

  const UNARY := 8

  // ---------------------------------------------------------------------
  // Trees that the table allows

  /** The tokens of a tree, in order. */
  function Flat(e: Tree): (s: seq<Token>)
    ensures |s| > 0
  {
    match e
    case Leaf(id) => [Atom(id)]
    case Paren(x) => [LPar] + Flat(x) + [RPar]
    case Unary(u, x) => [UnToken(u)] + Flat(x)
    case Binary(op, l, r) => Flat(l) + [BinToken(op)] + Flat(r)
  }

  /** An operator of left priority n after e stays outside of e. */
  predicate EndsBefore(e: Tree, n: nat) {
    match e
    case Leaf(_) => true
    case Paren(_) => true
    case Unary(_, x) => n <= UNARY && EndsBefore(x, n)
    case Binary(op, _, r) => n <= Right(op) && EndsBefore(r, n)
  }

  /** The operators that begin at the left edge of e bind tighter than limit. */
  predicate Above(e: Tree, limit: nat) {
    e.Binary? ==> Left(e.op) > limit && Above(e.l, limit)
  }

  /** Every operator of the tree has the operands that the table gives it. */
  predicate Allowed(e: Tree) {
    match e
    case Leaf(_) => true
    case Paren(x) => Allowed(x)
    case Unary(_, x) => Allowed(x) && Above(x, UNARY)
    case Binary(op, l, r) => Allowed(l) && Allowed(r) && EndsBefore(l, Left(op)) && Above(r, Right(op))
  }

  // ---------------------------------------------------------------------
  // The parser

  datatype Parsed = Ok(e: Tree, pos: nat) | Error

  function TokenAt(t: seq<Token>, p: nat): Token {
    if p < |t| then t[p] else Other(0)
  }

  /** The left priority of the operator at p; 0 if there is none. */
  function NextPriority(t: seq<Token>, p: nat): nat {
    match GetBinOp(TokenAt(t, p))
    case None => 0
    case Some(op) => Left(op)
  }

  function SubExpr(t: seq<Token>, p: nat, limit: nat): (r: Parsed)
    ensures r.Ok? ==> p < r.pos <= |t|
    decreases |t| - p, 1
  {
    if p >= |t| then Error
    else
      match GetUnOp(t[p])
      case Some(u) =>
        var x := SubExpr(t, p + 1, UNARY);
        if x.Error? then Error else Rest(t, Unary(u, x.e), x.pos, limit)
      case None =>
        match t[p]
        case Atom(id) => Rest(t, Leaf(id), p + 1, limit)
        case LPar =>
          var x := SubExpr(t, p + 1, 0);
          if x.Error? || TokenAt(t, x.pos) != RPar then Error else Rest(t, Paren(x.e), x.pos + 1, limit)
        case _ => Error
  }

  /** The loop of subexpr after the operand e. */
  function Rest(t: seq<Token>, e: Tree, p: nat, limit: nat): (r: Parsed)
    requires p <= |t|
    ensures r.Ok? ==> p <= r.pos <= |t|
    decreases |t| - p, 0
  {
    match GetBinOp(TokenAt(t, p))
    case None => Ok(e, p)
    case Some(op) =>
      if Left(op) <= limit then Ok(e, p)
      else
        var x := SubExpr(t, p + 1, Right(op));
        if x.Error? then Error else Rest(t, Binary(op, e, x.e), x.pos, limit)
  }

  class Parser {
    const t: seq<Token>
    var pos: nat

    constructor (t: seq<Token>)
      ensures this.t == t && pos == 0
    {
      this.t, pos := t, 0;
    }

    /** simpleexp, for the operands of this model. */
    method SimpleExp() returns (e: Option<Tree>)
      requires pos <= |t|
      modifies this`pos
      ensures pos <= |t|
      ensures old(pos) < |t| && GetUnOp(t[old(pos)]).None? ==>
                forall limit :: SubExpr(t, old(pos), limit) == if e.None? then Error else Rest(t, e.value, pos, limit)
      ensures e.Some? ==> old(pos) < pos
      ensures old(pos) == |t| ==> e.None?
      decreases |t| - pos, 0
    {
      var c := TokenAt(t, pos);
      match c {
        case Atom(id) =>
          pos := pos + 1;
          return Some(Leaf(id));
        case LPar =>
          pos := pos + 1;
          var x, op := SubExpression(0);
          if x.None? || TokenAt(t, pos) != RPar { return None; }
          pos := pos + 1;
          return Some(Paren(x.value));
        case _ => return None;
      }
    }

    /** subexpr: returns the first untreated operator too. */
    method SubExpression(limit: nat) returns (e: Option<Tree>, op: Option<BinOp>)
      requires pos <= |t|
      modifies this`pos
      ensures pos <= |t|
      ensures SubExpr(t, old(pos), limit) == if e.None? then Error else Ok(e.value, pos)
      ensures e.Some? ==> op == GetBinOp(TokenAt(t, pos)) && old(pos) < pos
      decreases |t| - pos, 1
    {
      op := None;
      ghost var p0 := pos;
      var u := GetUnOp(TokenAt(t, pos));
      if u.Some? && pos < |t| {
        pos := pos + 1;
        var x, op1 := SubExpression(UNARY);
        if x.None? { return None, None; }
        e := Some(Unary(u.value, x.value));
      } else {
        e := SimpleExp();
        if e.None? { return None, None; }
      }
      op := GetBinOp(TokenAt(t, pos));
      while op.Some? && Left(op.value) > limit
        invariant e.Some? && p0 < pos <= |t| && op == GetBinOp(TokenAt(t, pos))
        invariant SubExpr(t, p0, limit) == Rest(t, e.value, pos, limit)
        decreases |t| - pos
      {
        pos := pos + 1;
        var x, next := SubExpression(Right(op.value));
        if x.None? { return None, None; }
        e := Some(Binary(op.value, e.value, x.value));
        op := next;
      }
    }
  }

  // ---------------------------------------------------------------------
  // The parser finds every allowed tree

  /** Parsing the tokens of an allowed tree is the same as having the tree and
      going on after it. */
  lemma {:induction false} ParsesAllowed(t: seq<Token>, p: nat, e: Tree, limit: nat)
    requires Allowed(e) && Above(e, limit) && p + |Flat(e)| <= |t| && t[p..p + |Flat(e)|] == Flat(e)
    requires EndsBefore(e, NextPriority(t, p + |Flat(e)|))
    ensures SubExpr(t, p, limit) == Rest(t, e, p + |Flat(e)|, limit)
    decreases e
  {
    hide SubExpr, Rest, NextPriority, Flat;
    match e {
      case Leaf(id) =>
        FlatLeaf(t, p, id);
        StepAtom(t, p, id, limit);
      case Paren(x) =>
        FlatParen(t, p, x);
        NoneAfter(x);
        AboveZero(x);
        ClosingPriority(t, p + 1 + |Flat(x)|);
        ParsesAllowed(t, p + 1, x, 0);
        StepParen(t, p, x, p + 1 + |Flat(x)|, limit);
      case Unary(u, x) =>
        FlatUnary(t, p, u, x);
        ParsesAllowed(t, p + 1, x, UNARY);
        StepUnary(t, p, u, x, p + 1 + |Flat(x)|, limit);
      case Binary(op, l, r) =>
        FlatBinary(t, p, op, l, r);
        var q := p + |Flat(l)|;
        OperatorPriority(t, q, op);
        ParsesAllowed(t, p, l, limit);
        ParsesAllowed(t, q + 1, r, Right(op));
        StepBinary(t, l, q, op, r, q + 1 + |Flat(r)|, limit);
    }
  }

  /** The tokens of e stand at position p. */
  ghost predicate Stands(t: seq<Token>, p: nat, e: Tree) {
    p + |Flat(e)| <= |t| && t[p..p + |Flat(e)|] == Flat(e)
  }

  lemma FlatLeaf(t: seq<Token>, p: nat, id: int)
    requires Stands(t, p, Leaf(id))
    ensures p < |t| && t[p] == Atom(id) && |Flat(Leaf(id))| == 1
  {
    assert t[p..p + 1][0] == Atom(id);
  }

  lemma FlatParen(t: seq<Token>, p: nat, x: Tree)
    requires Stands(t, p, Paren(x))
    ensures |Flat(Paren(x))| == |Flat(x)| + 2 && p + 1 + |Flat(x)| < |t|
    ensures t[p] == LPar && Stands(t, p + 1, x) && t[p + 1 + |Flat(x)|] == RPar
  {
    Middle(t, p, [LPar], Flat(x), [RPar]);
    assert [LPar] + Flat(x) + [RPar] == [] + [LPar] + (Flat(x) + [RPar]);
    Middle(t, p, [], [LPar], Flat(x) + [RPar]);
  }

  lemma FlatUnary(t: seq<Token>, p: nat, u: UnOp, x: Tree)
    requires Stands(t, p, Unary(u, x))
    ensures |Flat(Unary(u, x))| == |Flat(x)| + 1 && p < |t| && t[p] == UnToken(u) && Stands(t, p + 1, x)
  {
    assert [UnToken(u)] + Flat(x) + [] == Flat(Unary(u, x)) == [] + [UnToken(u)] + Flat(x);
    Middle(t, p, [UnToken(u)], Flat(x), []);
    Middle(t, p, [], [UnToken(u)], Flat(x));
  }

  lemma FlatBinary(t: seq<Token>, p: nat, op: BinOp, l: Tree, r: Tree)
    requires Stands(t, p, Binary(op, l, r))
    ensures |Flat(Binary(op, l, r))| == |Flat(l)| + 1 + |Flat(r)| && p + |Flat(l)| < |t|
    ensures Stands(t, p, l) && t[p + |Flat(l)|] == BinToken(op) && Stands(t, p + |Flat(l)| + 1, r)
  {
    var b := BinToken(op);
    assert Flat(Binary(op, l, r)) == [] + Flat(l) + ([b] + Flat(r)) == (Flat(l) + [b]) + Flat(r) + [];
    Middle(t, p, [], Flat(l), [b] + Flat(r));
    Middle(t, p, Flat(l) + [b], Flat(r), []);
  }

  // One step of the parser each

  lemma StepAtom(t: seq<Token>, p: nat, id: int, limit: nat)
    requires p < |t| && t[p] == Atom(id)
    ensures SubExpr(t, p, limit) == Rest(t, Leaf(id), p + 1, limit)
  {
  }

  lemma RestStops(t: seq<Token>, e: Tree, q: nat, limit: nat)
    requires q <= |t| && NextPriority(t, q) <= limit
    ensures Rest(t, e, q, limit) == Ok(e, q)
  {
  }

  lemma ClosingPriority(t: seq<Token>, q: nat)
    requires q < |t| && t[q] == RPar
    ensures NextPriority(t, q) == 0
  {
  }

  lemma OperatorPriority(t: seq<Token>, q: nat, op: BinOp)
    requires q < |t| && t[q] == BinToken(op)
    ensures NextPriority(t, q) == Left(op)
  {
  }

  lemma StepParen(t: seq<Token>, p: nat, x: Tree, q: nat, limit: nat)
    requires p < q < |t| && t[p] == LPar && t[q] == RPar && SubExpr(t, p + 1, 0) == Rest(t, x, q, 0)
    ensures SubExpr(t, p, limit) == Rest(t, Paren(x), q + 1, limit)
  {
    ClosingPriority(t, q);
    RestStops(t, x, q, 0);
  }

  lemma StepUnary(t: seq<Token>, p: nat, u: UnOp, x: Tree, q: nat, limit: nat)
    requires p < q <= |t| && t[p] == UnToken(u) && SubExpr(t, p + 1, UNARY) == Rest(t, x, q, UNARY)
               && NextPriority(t, q) <= UNARY
    ensures SubExpr(t, p, limit) == Rest(t, Unary(u, x), q, limit)
  {
    RestStops(t, x, q, UNARY);
  }

  lemma StepBinary(t: seq<Token>, l: Tree, p: nat, op: BinOp, r: Tree, q: nat, limit: nat)
    requires p < q <= |t| && t[p] == BinToken(op) && Left(op) > limit
    requires SubExpr(t, p + 1, Right(op)) == Rest(t, r, q, Right(op)) && NextPriority(t, q) <= Right(op)
    ensures Rest(t, l, p, limit) == Rest(t, Binary(op, l, r), q, limit)
  {
    RestStops(t, r, q, Right(op));
  }

  lemma Middle(t: seq<Token>, p: nat, a: seq<Token>, b: seq<Token>, c: seq<Token>)
    requires p + |a| + |b| + |c| <= |t| && t[p..p + |a| + |b| + |c|] == a + b + c
    ensures t[p + |a|..p + |a| + |b|] == b
    ensures c != [] ==> t[p + |a| + |b|] == c[0]
    ensures b != [] ==> t[p + |a|] == b[0]
  {
    var s, m := a + b + c, t[p + |a|..p + |a| + |b|];
    assert forall i :: 0 <= i < |s| ==> t[p + i] == s[i];
    assert forall i :: 0 <= i < |b| ==> m[i] == s[|a| + i] == b[i];
    if c != [] { assert t[p + (|a| + |b|)] == s[|a| + |b|]; }
  }

  lemma {:induction false} NoneAfter(e: Tree)
    ensures EndsBefore(e, 0)
  {
    match e {
      case Leaf(_) =>
      case Paren(_) =>
      case Unary(_, x) => NoneAfter(x);
      case Binary(_, _, r) => NoneAfter(r);
    }
  }

  lemma {:induction false} AboveZero(e: Tree)
    ensures Above(e, 0)
  {
    if e.Binary? { AboveZero(e.l); }
  }

  // ---------------------------------------------------------------------
  // The parser finds allowed trees only

  /** What a result means: the tokens read are those of an allowed tree, and
      the next operator belongs to none of its parts. */
  ghost predicate Faithful(t: seq<Token>, p: nat, limit: nat, e: Tree, q: nat) {
    && p <= q <= |t| && Flat(e) == t[p..q] && Allowed(e) && Above(e, limit)
    && EndsBefore(e, NextPriority(t, q)) && NextPriority(t, q) <= limit
  }

  lemma {:induction false} SubExprFaithful(t: seq<Token>, p: nat, limit: nat)
    requires SubExpr(t, p, limit).Ok?
    ensures var r := SubExpr(t, p, limit); Faithful(t, p, limit, r.e, r.pos)
    decreases |t| - p, 1
  {
    TokenIs(t[p]);
    var u := GetUnOp(t[p]);
    if u.Some? {
      var x := SubExpr(t, p + 1, UNARY);
      SubExprFaithful(t, p + 1, UNARY);
      hide SubExpr, Rest;
      SliceJoin(t, p, p + 1, x.pos);
      RestFaithful(t, p, Unary(u.value, x.e), x.pos, limit);
    } else if t[p].Atom? {
      assert t[p..p + 1] == [t[p]];
      RestFaithful(t, p, Leaf(t[p].id), p + 1, limit);
    } else {
      var x := SubExpr(t, p + 1, 0);
      SubExprFaithful(t, p + 1, 0);
      hide SubExpr, Rest;
      SliceJoin(t, p, p + 1, x.pos);
      SliceJoin(t, p, x.pos, x.pos + 1);
      RestFaithful(t, p, Paren(x.e), x.pos + 1, limit);
    }
  }

  lemma SliceJoin(t: seq<Token>, p: nat, m: nat, q: nat)
    requires p <= m <= q <= |t|
    ensures t[p..q] == t[p..m] + t[m..q]
    ensures m == p + 1 ==> t[p..m] == [t[p]]
    ensures q == m + 1 ==> t[m..q] == [t[m]]
  {
  }

  /** A token is the token of the operator it is read as. */
  lemma TokenIs(c: Token)
    ensures GetUnOp(c).Some? ==> UnToken(GetUnOp(c).value) == c
    ensures GetBinOp(c).Some? ==> BinToken(GetBinOp(c).value) == c
  {
  }

  lemma {:induction false} RestFaithful(t: seq<Token>, p: nat, e: Tree, q: nat, limit: nat)
    requires p <= q <= |t| && Flat(e) == t[p..q] && Allowed(e) && Above(e, limit) && EndsBefore(e, NextPriority(t, q))
    requires Rest(t, e, q, limit).Ok?
    ensures var r := Rest(t, e, q, limit); Faithful(t, p, limit, r.e, r.pos)
    decreases |t| - q, 0
  {
    var op := GetBinOp(TokenAt(t, q));
    if op.Some? && Left(op.value) > limit {
      TokenIs(t[q]);
      var x := SubExpr(t, q + 1, Right(op.value));
      SubExprFaithful(t, q + 1, Right(op.value));
      hide SubExpr, Rest;
      SliceJoin(t, q, q + 1, x.pos);
      SliceJoin(t, p, q, x.pos);
      assert Flat(Binary(op.value, e, x.e)) == t[p..x.pos];
      RestFaithful(t, p, Binary(op.value, e, x.e), x.pos, limit);
    }
  }

  // ---------------------------------------------------------------------
  // Exactly one tree

  /** A token list that is accepted as a whole has exactly one allowed tree,
      and that is what the parser returns. */
  lemma OneTree(t: seq<Token>, e: Tree)
    ensures SubExpr(t, 0, 0) == Ok(e, |t|) <==> Allowed(e) && Flat(e) == t
  {
    hide SubExpr, Flat, Allowed;
    if SubExpr(t, 0, 0) == Ok(e, |t|) {
      SubExprFaithful(t, 0, 0);
      assert t[0..|t|] == t;
    }
    if Allowed(e) && Flat(e) == t {
      assert t[0..0 + |Flat(e)|] == t;
      NoneAfter(e);
      AboveZero(e);
      ParsesAllowed(t, 0, e, 0);
      RestStops(t, e, |t|, 0);
    }
  }

  // ---------------------------------------------------------------------
  // Printing with parentheses where the table requires them

  predicate NoParens(e: Tree) {
    match e
    case Leaf(_) => true
    case Paren(_) => false
    case Unary(_, x) => NoParens(x)
    case Binary(_, l, r) => NoParens(l) && NoParens(r)
  }

  function Erase(e: Tree): Tree {
    match e
    case Leaf(_) => e
    case Paren(x) => Erase(x)
    case Unary(u, x) => Unary(u, Erase(x))
    case Binary(op, l, r) => Binary(op, Erase(l), Erase(r))
  }

  /** The tree with parentheses around the operands that the table would read
      in another way, and nowhere else. */
  function Fix(e: Tree): Tree {
    match e
    case Leaf(_) => e
    case Paren(x) => Paren(Fix(x))
    case Unary(u, x) => var y := Fix(x); Unary(u, if Above(y, UNARY) then y else Paren(y))
    case Binary(op, l, r) =>
      var a, b := Fix(l), Fix(r);
      Binary(op, if EndsBefore(a, Left(op)) then a else Paren(a), if Above(b, Right(op)) then b else Paren(b))
  }

  lemma {:induction false} FixAllowed(e: Tree)
    ensures Allowed(Fix(e)) && (NoParens(e) ==> Erase(Fix(e)) == e)
  {
    match e {
      case Leaf(_) =>
      case Paren(x) => FixAllowed(x);
      case Unary(_, x) => FixAllowed(x);
      case Binary(_, l, r) => FixAllowed(l); FixAllowed(r);
    }
  }

  /** Printing a tree and parsing it gives the tree back. */
  lemma PrintParse(e: Tree)
    requires NoParens(e)
    ensures var t := Flat(Fix(e));
            SubExpr(t, 0, 0).Ok? && SubExpr(t, 0, 0).pos == |t| && Erase(SubExpr(t, 0, 0).e) == e
  {
    FixAllowed(e);
    OneTree(Flat(Fix(e)), Fix(e));
  }

  /** e' is e with one pair of parentheses left out. */
  predicate DropsOne(e: Tree, e': Tree) {
    match e
    case Leaf(_) => false
    case Paren(x) => e' == x || (e'.Paren? && DropsOne(x, e'.e))
    case Unary(u, x) => e'.Unary? && e'.u == u && DropsOne(x, e'.e)
    case Binary(op, l, r) =>
      e'.Binary? && e'.op == op && ((DropsOne(l, e'.l) && e'.r == r) || (e'.l == l && DropsOne(r, e'.r)))
  }

  lemma {:induction false} DropsTwo(e: Tree, e': Tree)
    requires DropsOne(e, e')
    ensures |Flat(e')| == |Flat(e)| - 2
  {
    match e {
      case Paren(x) => if e' != x { DropsTwo(x, e'.e); }
      case Unary(_, x) => DropsTwo(x, e'.e);
      case Binary(_, l, r) => if e'.r == r && DropsOne(l, e'.l) { DropsTwo(l, e'.l); } else { DropsTwo(r, e'.r); }
    }
  }

  /** Of a printed tree the operator at the top decides what may precede it. */
  lemma {:induction false} AboveTop(e: Tree, limit: nat)
    requires NoParens(e)
    ensures Above(Fix(e), limit) <==> (e.Binary? ==> Left(e.op) > limit)
  {
    if e.Binary? { AboveTop(e.l, limit); EndsTop(e.l, e.op); }
  }

  /** And what may follow it. */
  lemma {:induction false} EndsTop(e: Tree, next: BinOp)
    requires NoParens(e)
    ensures EndsBefore(Fix(e), Left(next)) <==>
            (e.Unary? ==> Left(next) <= UNARY) && (e.Binary? ==> Left(next) <= Right(e.op))
  {
    if e.Unary? {
      EndsTop(e.e, next);
      AboveTop(e.e, UNARY);
    } else if e.Binary? {
      EndsTop(e.r, next);
      AboveTop(e.r, Right(e.op));
    }
  }

  lemma {:induction false} EraseNone(x: Tree)
    ensures NoParens(Erase(x))
  {
    match x {
      case Leaf(_) =>
      case Paren(y) => EraseNone(y);
      case Unary(_, y) => EraseNone(y);
      case Binary(_, l, r) => EraseNone(l); EraseNone(r);
    }
  }

  /** No allowed tree is shorter than the printed one. */
  lemma {:induction false} FixShortest(x: Tree)
    requires Allowed(x)
    ensures |Flat(Fix(Erase(x)))| <= |Flat(x)|
  {
    EraseNone(x);
    match x {
      case Leaf(_) =>
      case Paren(y) => FixShortest(y);
      case Unary(_, y) =>
        FixShortest(y);
        RightShortest(y, UNARY);
      case Binary(op, l, r) =>
        FixShortest(l);
        FixShortest(r);
        RightShortest(r, Right(op));
        EndsTop(Erase(l), op);
        if l.Paren? { FixShortest(l.e); }
    }
  }

  /** A right operand without parentheses needs none in print. */
  lemma {:induction false} RightShortest(y: Tree, limit: nat)
    requires Allowed(y) && Above(y, limit) && NoParens(Erase(y)) && |Flat(Fix(Erase(y)))| <= |Flat(y)|
    ensures Above(Fix(Erase(y)), limit) || |Flat(Fix(Erase(y)))| + 2 <= |Flat(y)|
    decreases y, 0
  {
    AboveTop(Erase(y), limit);
    if y.Paren? { FixShortest(y.e); }
  }

  /** No text that is read as the tree is shorter than the printed one. */
  lemma ShortestText(t: seq<Token>, e: Tree)
    requires var r := SubExpr(t, 0, 0); r.Ok? && r.pos == |t| && Erase(r.e) == e
    ensures |Flat(Fix(e))| <= |t|
  {
    var x := SubExpr(t, 0, 0).e;
    OneTree(t, x);
    FixShortest(x);
  }

  /** Every pair of parentheses that is printed, around the operand of a unary
      or of a binary operator and at any depth, is needed: whatever the text
      without it is read as, it is another tree. */
  lemma ParensNeeded(e: Tree, e': Tree)
    requires NoParens(e) && DropsOne(Fix(e), e')
    ensures var r := SubExpr(Flat(e'), 0, 0); r.Ok? && r.pos == |Flat(e')| ==> Erase(r.e) != e
  {
    DropsTwo(Fix(e), e');
    var r := SubExpr(Flat(e'), 0, 0);
    if r.Ok? && r.pos == |Flat(e')| && Erase(r.e) == e { ShortestText(Flat(e'), e); }
  }
}
