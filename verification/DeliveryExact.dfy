/** When the delivered value is the meaning of the expression. */
module DeliveryExact {
  import opened Options
  import opened LuaValue
  import opened Bytecode
  import opened Expr
  import opened Delivery

  /** Static facts about an expression whose code may be entered by waiting
      jumps with values: whether its true and false lists can carry values,
      whether a value can still be held after it, and whether luaK_jump never
      takes over a held value inside it. */
  datatype Flags = Flags(ct: bool, cf: bool, held: bool, safe: bool)

  function FlagsOf(e: Expr, held: bool, K: seq<Value>): Flags
    decreases e
  {
    match e
    case ENot(a) =>
      var f := FlagsOf(a, held, K);
      Flags(false, false, IsConstant(ShapeOf(a)) && f.held, f.safe)
    case EAnd(a, b) =>
      var f, s := FlagsOf(a, held, K), ShapeOf(a);
      var g := FlagsOf(b, f.ct || (AlwaysTrue(s) && f.held), BeforeRight(e, K));
      Flags(g.ct, g.cf || f.cf || !(AlwaysTrue(s) || s.SFalse? || s.SJmp? || s.SReloc?), g.held,
            f.safe && g.safe && !(s.SFalse? && f.held))
    case EOr(a, b) =>
      var f, s := FlagsOf(a, held, K), ShapeOf(a);
      var g := FlagsOf(b, f.cf || (AlwaysFalse(s) && f.held), BeforeRight(e, K));
      Flags(g.ct || f.ct || !(AlwaysFalse(s) || s.STrue? || s.SJmp? || s.SReloc?), g.cf, g.held,
            f.safe && g.safe && !(s.STrue? && f.held))
    case ECmp(_, a, b) =>
      var f := FlagsOf(a, held, K);
      var g := FlagsOf(b, f.held && NoCode(a, Constants(a, K)), BeforeRight(e, K));
      Flags(false, false, false, f.safe && g.safe)
    case _ => Flags(false, false, held, true)
  }

  /** No constant jump of luaK_goiftrue or luaK_goiffalse can hold a value. */
  predicate Safe(e: Expr, K: seq<Value>) {
    FlagsOf(e, false, K).safe
  }

  /** The way carries values only as flagged. */
  predicate Flagged(w: Way, f: Flags) {
    match w
    case TrueExit(cv) => cv.Some? ==> f.ct
    case FalseExit(cv) => cv.Some? ==> f.cf
    case Through(_, held) => held.Some? ==> f.held
    case Failed => true
  }

  /** The run ends at a constant `false` before `and` (`true` before `or`)
      that it reached holding another value. */
  predicate EndsHeld(e: Expr, r: Regs, held: Option<Value>, K: seq<Value>)
    decreases e
  {
    match e
    case EAnd(a, b) =>
      var wa := WayOf(a, r, held, K);
      var w := IfTrue(ShapeOf(a), wa);
      if w.Through? then EndsHeld(b, r, w.held, BeforeRight(e, K))
      else if wa.Through? then ShapeOf(a).SFalse? && w == FalseExit(wa.held) && wa.held.Some?
          && wa.held.value != Boolean(false)
      else EndsHeld(a, r, held, K)
    case EOr(a, b) =>
      var wa := WayOf(a, r, held, K);
      var w := IfFalse(ShapeOf(a), wa);
      if w.Through? then EndsHeld(b, r, w.held, BeforeRight(e, K))
      else if wa.Through? then ShapeOf(a).STrue? && w == TrueExit(wa.held) && wa.held.Some?
          && wa.held.value != Boolean(true)
      else EndsHeld(a, r, held, K)
    case _ => false
  }

  /** What the value of a run would be if held values were dropped. */
  function Intended(e: Expr, r: Regs, held: Option<Value>, K: seq<Value>): Option<Value> {
    var w := WayOf(e, r, held, K);
    if !EndsHeld(e, r, held, K) then Closed(w) else Some(Boolean(w.TrueExit?))
  }

  function Compared(op: BinCmp, x: Option<Value>, y: Option<Value>): Option<Value> {
    if x.None? || y.None? then None
    else match CompareValues(op, x.value, y.value)
         case None => None
         case Some(t) => Some(Boolean(t))
  }

  /** Every comparison that the run evaluates has the outcome that it would
      have without held values. */
  predicate RunSafe(e: Expr, r: Regs, held: Option<Value>, K: seq<Value>)
    decreases e
  {
    match e
    case ENot(a) => RunSafe(a, r, held, K)
    case EAnd(a, b) =>
      var w := IfTrue(ShapeOf(a), WayOf(a, r, held, K));
      RunSafe(a, r, held, K) && (w.Through? ==> RunSafe(b, r, w.held, BeforeRight(e, K)))
    case EOr(a, b) =>
      var w := IfFalse(ShapeOf(a), WayOf(a, r, held, K));
      RunSafe(a, r, held, K) && (w.Through? ==> RunSafe(b, r, w.held, BeforeRight(e, K)))
    case ECmp(op, a, b) =>
      var wa := WayOf(a, r, held, K);
      var h := if NoCode(a, Constants(a, K)) && wa.Through? then wa.held else None;
      && RunSafe(a, r, held, K)
      && (Closed(wa).Some? ==>
            && RunSafe(b, r, h, BeforeRight(e, K))
            && Compared(op, Closed(wa), Closed(WayOf(b, r, h, BeforeRight(e, K))))
               == Compared(op, Intended(a, r, held, K), Intended(b, r, h, BeforeRight(e, K))))
    case _ => true
  }

  /** The way takes the right turn, though the value may be a held one. */
  predicate TurnsRight(w: Way, v: Option<Value>, s: Shape) {
    match w
    case TrueExit(cv) => v.Some? && !IsFalse(v.value) && (cv == v || v == Some(Boolean(true)))
    case FalseExit(cv) => v.Some? && IsFalse(v.value) && (cv == v || v == Some(Boolean(false)))
    case Through(x, _) =>
      v == Some(x) && (IsConstant(s) ==> x == Constant(s)) && (s.SJmp? || s.SReloc? ==> x.Boolean?)
    case Failed => v == None
  }

  lemma LogicTurns(isAnd: bool, s: Shape, w: Way, v: Option<Value>, s': Shape)
    requires TurnsRight(w, v, s)
    ensures var w' := if isAnd then IfTrue(s, w) else IfFalse(s, w);
            && (w'.Through? <==> v.Some? && IsFalse(v.value) != isAnd)
            && (!w'.Through? ==> TurnsRight(w', v, s'))
            && (!w'.Through? && !w.Through? ==> w' == w)
            && (!w'.Through? && w.Through? ==>
                  (Closed(w') != v <==>
                   if isAnd
                   then s.SFalse? && w' == FalseExit(w.held) && w.held.Some? && w.held.value != Boolean(false)
                   else s.STrue? && w' == TrueExit(w.held) && w.held.Some? && w.held.value != Boolean(true)))
  {
  }

  lemma CompareWay(op: BinCmp, a: Expr, b: Expr, r: Regs, held: Option<Value>, K: seq<Value>)
    ensures var e, wa := ECmp(op, a, b), WayOf(a, r, held, K);
            var h := if NoCode(a, Constants(a, K)) && wa.Through? then wa.held else None;
            && Closed(WayOf(e, r, held, K)) == Compared(op, Closed(wa), Closed(WayOf(b, r, h, BeforeRight(e, K))))
            && Eval(e, r) == Compared(op, Eval(a, r), Eval(b, r))
            && TurnsRight(WayOf(e, r, held, K), Closed(WayOf(e, r, held, K)), SJmp)
  {
    hide BeforeRight, Constants, NoCode, CompareValues;
  }

  /** In every run whose comparisons come out right, all turns are right, and
      the value is wrong exactly if the run ends held. */
  lemma {:induction false} RunExact(e: Expr, r: Regs, held: Option<Value>, K: seq<Value>)
    requires RunSafe(e, r, held, K)
    ensures TurnsRight(WayOf(e, r, held, K), Eval(e, r), ShapeOf(e))
    ensures Closed(WayOf(e, r, held, K)) != Eval(e, r) <==> EndsHeld(e, r, held, K)
    decreases e, 1
  {
    hide BeforeRight, Constants, NoCode, CompareValues, IfTrue, IfFalse, Compared, Intended;
    match e
    case ENot(a) => RunExact(a, r, held, K);
    case EAnd(_, _) => RunExactLogic(e, r, held, K);
    case EOr(_, _) => RunExactLogic(e, r, held, K);
    case ECmp(_, _, _) => RunExactCompare(e, r, held, K);
    case _ =>
  }

  lemma {:induction false} RunExactCompare(e: Expr, r: Regs, held: Option<Value>, K: seq<Value>)
    requires RunSafe(e, r, held, K) && e.ECmp?
    ensures TurnsRight(WayOf(e, r, held, K), Eval(e, r), ShapeOf(e))
    ensures Closed(WayOf(e, r, held, K)) == Eval(e, r)
    decreases e, 0
  {
    hide BeforeRight, Constants, NoCode, CompareValues, TurnsRight, EndsHeld, Intended, Compared, WayOf, Closed, Eval;
    CompareWay(e.op, e.a, e.b, r, held, K);
    var wa := WayOf(e.a, r, held, K);
    var h := if NoCode(e.a, Constants(e.a, K)) && wa.Through? then wa.held else None;
    IntendedIs(e.a, r, held, K);
    if Closed(wa).Some? { IntendedIs(e.b, r, h, BeforeRight(e, K)); } else { ComparedNone(e.op); }
  }

  lemma ComparedNone(op: BinCmp)
    ensures forall y :: Compared(op, None, y) == None
  {
  }

  lemma {:induction false} IntendedIs(e: Expr, r: Regs, held: Option<Value>, K: seq<Value>)
    requires RunSafe(e, r, held, K)
    ensures Intended(e, r, held, K) == Eval(e, r)
    ensures Closed(WayOf(e, r, held, K)).None? ==> Eval(e, r).None?
    decreases e, 2
  {
    RunExact(e, r, held, K);
    if EndsHeld(e, r, held, K) { HeldLeaves(e, r, held, K); }
  }

  lemma {:induction false} HeldLeaves(e: Expr, r: Regs, held: Option<Value>, K: seq<Value>)
    requires EndsHeld(e, r, held, K)
    ensures WayOf(e, r, held, K).TrueExit? || WayOf(e, r, held, K).FalseExit?
    decreases e
  {
    hide BeforeRight, NoCode, Constants;
    if e.EAnd? || e.EOr? {
      var wa := WayOf(e.a, r, held, K);
      var w := if e.EAnd? then IfTrue(ShapeOf(e.a), wa) else IfFalse(ShapeOf(e.a), wa);
      if w.Through? { HeldLeaves(e.b, r, w.held, BeforeRight(e, K)); }
      else if !wa.Through? { HeldLeaves(e.a, r, held, K); }
    }
  }

  lemma {:induction false} RunExactLogic(e: Expr, r: Regs, held: Option<Value>, K: seq<Value>)
    requires RunSafe(e, r, held, K) && (e.EAnd? || e.EOr?)
    ensures TurnsRight(WayOf(e, r, held, K), Eval(e, r), ShapeOf(e))
    ensures Closed(WayOf(e, r, held, K)) != Eval(e, r) <==> EndsHeld(e, r, held, K)
    decreases e, 0
  {
    hide BeforeRight, IfTrue, IfFalse, TurnsRight, Closed;
    RunExact(e.a, r, held, K);
    var wa := WayOf(e.a, r, held, K);
    LogicTurns(e.EAnd?, ShapeOf(e.a), wa, Eval(e.a, r), ShapeOf(e));
    var w := if e.EAnd? then IfTrue(ShapeOf(e.a), wa) else IfFalse(ShapeOf(e.a), wa);
    if w.Through? { RunExact(e.b, r, w.held, BeforeRight(e, K)); }
    else if !wa.Through? { TurnsValue(wa, Eval(e.a, r), ShapeOf(e.a)); }
  }

  lemma TurnsValue(w: Way, v: Option<Value>, s: Shape)
    requires TurnsRight(w, v, s)
    ensures (w.TrueExit? ==> v.Some? && !IsFalse(v.value)) && (w.FalseExit? ==> v.Some? && IsFalse(v.value))
    ensures w.Failed? ==> v.None?
  {
  }

  /** For every expression and all registers: delivered and meant value differ
      exactly if the run ends held, or else a comparison came out wrong. */
  lemma WrongExactly(e: Expr, r: Regs, K: seq<Value>)
    ensures Delivered(e, r, K) != Eval(e, r) ==> EndsHeld(e, r, None, K) || !RunSafe(e, r, None, K)
    ensures EndsHeld(e, r, None, K) && RunSafe(e, r, None, K) ==> Delivered(e, r, K) != Eval(e, r)
  {
    if RunSafe(e, r, None, K) { RunExact(e, r, None, K); }
  }

  /** A comparison whose operands may end held is wrong exactly if it tells the
      values they deliver from the booleans they mean. */
  lemma CompareExactly(op: BinCmp, a: Expr, b: Expr, r: Regs, held: Option<Value>, K: seq<Value>)
    requires RunSafe(a, r, held, K)
    requires var wa := WayOf(a, r, held, K);
             RunSafe(b, r, if NoCode(a, Constants(a, K)) && wa.Through? then wa.held else None,
                     BeforeRight(ECmp(op, a, b), K))
    ensures var e, wa := ECmp(op, a, b), WayOf(a, r, held, K);
            var h := if NoCode(a, Constants(a, K)) && wa.Through? then wa.held else None;
            Closed(WayOf(e, r, held, K)) == Eval(e, r) <==>
            Compared(op, Closed(wa), Closed(WayOf(b, r, h, BeforeRight(e, K))))
            == Compared(op, Intended(a, r, held, K), Intended(b, r, h, BeforeRight(e, K)))
  {
    hide BeforeRight, Constants, NoCode, CompareValues, RunSafe, Intended, EndsHeld, Compared, Eval, WayOf, Closed;
    CompareWay(op, a, b, r, held, K);
    var wa := WayOf(a, r, held, K);
    IntendedIs(a, r, held, K);
    IntendedIs(b, r, if NoCode(a, Constants(a, K)) && wa.Through? then wa.held else None,
               BeforeRight(ECmp(op, a, b), K));
  }

  /** Every comparison that the run evaluates delivers what it means. */
  predicate AllCompareRight(e: Expr, r: Regs, held: Option<Value>, K: seq<Value>)
    decreases e
  {
    match e
    case ENot(a) => AllCompareRight(a, r, held, K)
    case EAnd(a, b) =>
      var w := IfTrue(ShapeOf(a), WayOf(a, r, held, K));
      AllCompareRight(a, r, held, K) && (w.Through? ==> AllCompareRight(b, r, w.held, BeforeRight(e, K)))
    case EOr(a, b) =>
      var w := IfFalse(ShapeOf(a), WayOf(a, r, held, K));
      AllCompareRight(a, r, held, K) && (w.Through? ==> AllCompareRight(b, r, w.held, BeforeRight(e, K)))
    case ECmp(_, a, b) =>
      var wa := WayOf(a, r, held, K);
      var h := if NoCode(a, Constants(a, K)) && wa.Through? then wa.held else None;
      && AllCompareRight(a, r, held, K) && (Closed(wa).Some? ==> AllCompareRight(b, r, h, BeforeRight(e, K)))
      && Closed(WayOf(e, r, held, K)) == Eval(e, r)
    case _ => true
  }

  /** RunSafe asks for no more than that, without looking at a meaning. */
  lemma {:induction false} RunSafeIs(e: Expr, r: Regs, held: Option<Value>, K: seq<Value>)
    ensures RunSafe(e, r, held, K) <==> AllCompareRight(e, r, held, K)
    decreases e
  {
    hide BeforeRight, Constants, NoCode, IfTrue, IfFalse, Closed, Compared, Intended, WayOf, Eval, EndsHeld;
    match e
    case ENot(a) => RunSafeIs(a, r, held, K);
    case EAnd(a, b) =>
      RunSafeIs(a, r, held, K);
      var w := IfTrue(ShapeOf(a), WayOf(a, r, held, K));
      if w.Through? { RunSafeIs(b, r, w.held, BeforeRight(e, K)); }
    case EOr(a, b) =>
      RunSafeIs(a, r, held, K);
      var w := IfFalse(ShapeOf(a), WayOf(a, r, held, K));
      if w.Through? { RunSafeIs(b, r, w.held, BeforeRight(e, K)); }
    case ECmp(op, a, b) =>
      RunSafeIs(a, r, held, K);
      var wa := WayOf(a, r, held, K);
      var h := if NoCode(a, Constants(a, K)) && wa.Through? then wa.held else None;
      RunSafeIs(b, r, h, BeforeRight(e, K));
      if RunSafe(e, r, held, K) { RunExactCompare(e, r, held, K); }
      if RunSafe(a, r, held, K) && RunSafe(b, r, h, BeforeRight(e, K)) { CompareExactly(op, a, b, r, held, K); }
    case _ =>
  }

  // ---------------------------------------------------------------------
  // The static test

  lemma IfFlagged(isAnd: bool, s: Shape, w: Way, f: Flags, g: Flags)
    requires Flagged(w, f) && !(f.held && if isAnd then s.SFalse? else s.STrue?)
    requires isAnd && (f.cf || !(AlwaysTrue(s) || s.SFalse? || s.SJmp? || s.SReloc?)) ==> g.cf
    requires !isAnd && (f.ct || !(AlwaysFalse(s) || s.STrue? || s.SJmp? || s.SReloc?)) ==> g.ct
    ensures var w' := if isAnd then IfTrue(s, w) else IfFalse(s, w);
            if w'.Through?
            then w'.held.Some? ==>
                   if isAnd then f.ct || (AlwaysTrue(s) && f.held) else f.cf || (AlwaysFalse(s) && f.held)
            else Flagged(w', g)
  {
  }

  /** A safe expression has only safe runs, and none of them ends held. */
  lemma {:induction false} SafeRuns(e: Expr, r: Regs, held: Option<Value>, h: bool, K: seq<Value>)
    requires FlagsOf(e, h, K).safe && (held.Some? ==> h)
    ensures RunSafe(e, r, held, K) && !EndsHeld(e, r, held, K)
    ensures Flagged(WayOf(e, r, held, K), FlagsOf(e, h, K))
    decreases e, 1
  {
    hide BeforeRight, Constants, NoCode, CompareValues, IfTrue, IfFalse;
    match e
    case ENot(a) => SafeRuns(a, r, held, h, K);
    case EAnd(_, _) => SafeLogic(e, r, held, h, K);
    case EOr(_, _) => SafeLogic(e, r, held, h, K);
    case ECmp(_, a, b) =>
      SafeRuns(a, r, held, h, K);
      var wa, f := WayOf(a, r, held, K), FlagsOf(a, h, K);
      var h1 := if NoCode(a, Constants(a, K)) && wa.Through? then wa.held else None;
      SafeRuns(b, r, h1, f.held && NoCode(a, Constants(a, K)), BeforeRight(e, K));
    case _ =>
  }

  lemma {:induction false} SafeLogic(e: Expr, r: Regs, held: Option<Value>, h: bool, K: seq<Value>)
    requires FlagsOf(e, h, K).safe && (held.Some? ==> h) && (e.EAnd? || e.EOr?)
    ensures RunSafe(e, r, held, K) && !EndsHeld(e, r, held, K)
    ensures Flagged(WayOf(e, r, held, K), FlagsOf(e, h, K))
    decreases e, 0
  {
    hide BeforeRight, IfTrue, IfFalse;
    SafeRuns(e.a, r, held, h, K);
    var f, s, wa := FlagsOf(e.a, h, K), ShapeOf(e.a), WayOf(e.a, r, held, K);
    IfFlagged(e.EAnd?, s, wa, f, FlagsOf(e, h, K));
    var w := if e.EAnd? then IfTrue(s, wa) else IfFalse(s, wa);
    if w.Through? {
      var hb := if e.EAnd? then f.ct || (AlwaysTrue(s) && f.held) else f.cf || (AlwaysFalse(s) && f.held);
      SafeRuns(e.b, r, w.held, hb, BeforeRight(e, K));
    }
  }

  /** A safe expression delivers its meaning, whatever the registers hold. */
  lemma SafeDelivers(e: Expr, r: Regs, K: seq<Value>)
    requires Safe(e, K)
    ensures Delivered(e, r, K) == Eval(e, r)
  {
    SafeRuns(e, r, None, false, K);
    RunExact(e, r, None, K);
  }

  /** `(x or y) and false and z` means false, but delivers x if x is true. */
  lemma WrongForTrueLeft(x: int, y: int, z: int, r: Regs, K: seq<Value>)
    requires !IsFalse(Get(r, x))
    ensures var e := EAnd(EAnd(EOr(ELocal(x), ELocal(y)), EFalse), ELocal(z));
            Eval(e, r) == Some(Boolean(false)) && Delivered(e, r, K) == Some(Get(r, x))
  {
    var a := EAnd(EOr(ELocal(x), ELocal(y)), EFalse);
    assert WayOf(EOr(ELocal(x), ELocal(y)), r, None, K) == TrueExit(Some(Get(r, x)));
    assert WayOf(a, r, None, K) == Through(Boolean(false), Some(Get(r, x)));
    assert ShapeOf(a) == SFalse;
    assert Eval(EOr(ELocal(x), ELocal(y)), r) == Some(Get(r, x));
    assert Eval(a, r) == Some(Boolean(false));
  }
}
