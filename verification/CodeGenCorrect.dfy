/** Every expression: the compiled code delivers the value of module Delivery,
    and `return` and assignment statements end with it. */
module CodeGenCorrect {
  import opened Options
  import opened LuaValue
  import opened Bytecode
  import opened Expr
  import opened CodeGen
  import opened CodeGenStatic
  import opened CodeGenRun
  import opened CodeGenWays
  import opened CodeGenLogic
  import opened Delivery

  // ---------------------------------------------------------------------
  // The shape of the descriptor

  predicate Shaped(fs: FS, fs': FS, d: Desc, e: Expr) {
    && ShapeIs(d.k, ShapeOf(e))
    && ((d.t != []) == Lists(e).0) && ((d.f != []) == Lists(e).1)
    && fs'.k == Constants(e, fs.k)
  }

  lemma AddKShape(fs: FS, v: Value, P: set<int>)
    requires WF(fs, P)
    ensures AddK(fs, v).0.k == WithConstant(fs.k, v)
  {
    if v in fs.kindex { assert fs.k[fs.kindex[v]] == v; }
  }

  lemma DischargeShape(fs: FS, e: Desc, reg: int, P: set<int>, sh: Shape)
    requires WF(fs, P) && ShapeIs(e.k, sh)
    ensures DischargeToReg(fs, e, reg).0.k == if sh.SNum? then WithConstant(fs.k, Constant(sh)) else fs.k
  {
    if sh.SNum? { AddKShape(fs, Constant(sh), P); }
  }

  lemma LeftShape(fs: FS, e: Desc, isAnd: bool, P: set<int>, sh: Shape)
    requires WFD(fs, e, P) && ShapeIs(e.k, sh) && !e.k.VLocal?
    ensures var (fs1, l) := if isAnd then JumpIfFalse(fs, e) else JumpIfTrue(fs, e);
            && (l != []) == !(if isAnd then AlwaysTrue(sh) else AlwaysFalse(sh))
            && fs1.k == if !isAnd && sh.SNum? then WithConstant(fs.k, Constant(sh)) else fs.k
  {
    hide ListOK, TestsOK, Patch, ConstantsOK, WFD;
    if !e.k.VNonReloc? { AnyRegShape(fs, e, P, sh); }
  }

  lemma AnyRegShape(fs: FS, e: Desc, P: set<int>, sh: Shape)
    requires WFD(fs, e, P) && ShapeIs(e.k, sh)
    ensures DischargeToReg(Reserve(fs, 1), e, fs.freereg).0.k
            == if sh.SNum? then WithConstant(fs.k, Constant(sh)) else fs.k
  {
    DischargeShape(Reserve(fs, 1), e, fs.freereg, Pending(e, P), sh);
  }

  lemma Exp2RegShape(fs: FS, e: Desc, reg: int, P: set<int>, sh: Shape)
    requires WFD(fs, e, P) && ShapeIs(e.k, sh)
    ensures Exp2Reg(fs, e, reg).0.k == if sh.SNum? then WithConstant(fs.k, Constant(sh)) else fs.k
  {
    DischargeShape(fs, e, reg, Pending(e, P), sh);
  }

  lemma Exp2RKShape(fs: FS, d: Desc, a: Expr, P: set<int>)
    requires WFD(fs, d, P) && Unplaced(fs, d)
    requires ShapeIs(d.k, ShapeOf(a)) && ((d.t != []) == Lists(a).0) && ((d.f != []) == Lists(a).1)
    ensures Exp2RK(fs, d).0.k == OperandConstants(a, fs.k)
    ensures (Ready(fs, d) || (!HasJumps(d) && IsConst(d.k) && |fs.k| <= MAXINDEXRK)) == NoCode(a, fs.k)
  {
    hide WF, KindOK, ListOK, Pending, SetOf, Exp2Reg, Exp2NextReg, AddK, ShapeOf, Lists, WithConstant;
    var d1 := DischargeVars(d);
    VarsStatic(fs, d, P);
    if IsConst(d.k) && !HasJumps(d) && |fs.k| <= MAXINDEXRK {
      AddKShape(fs, ConstValue(d.k), Pending(d, P));
    } else if HasJumps(d) || !d1.k.VNonReloc? {
      NextRegShape(fs, d1, P, ShapeOf(a));
    }
  }

  lemma VarsStatic(fs: FS, d: Desc, P: set<int>)
    requires WFD(fs, d, P) && Unplaced(fs, d)
    ensures var d1 := DischargeVars(d); WFD(fs, d1, P) && Unplaced(fs, d1) && !d1.k.VLocal?
  {
    hide ListOK, TestsOK, ConstantsOK;
  }

  lemma NextRegShape(fs: FS, d: Desc, P: set<int>, sh: Shape)
    requires WFD(fs, d, P) && ShapeIs(d.k, sh) && Unplaced(fs, d) && !d.k.VLocal?
    ensures Exp2NextReg(fs, d).0.k == if sh.SNum? then WithConstant(fs.k, Constant(sh)) else fs.k
    ensures Exp2NextReg(fs, d).1 == Desc(VNonReloc(fs.freereg), [], [])
  {
    Exp2RegShape(Reserve(fs, 1), d, fs.freereg, P, sh);
  }

  lemma {:induction false} CompileShape(fs: FS, e: Expr, P: set<int>)
    requires WF(fs, P) && Scoped(e, fs.nactvar)
    ensures var (fs', d) := Compile(fs, e);
            Shaped(fs, fs', d, e)
    decreases e, 1
  {
    hide ListOK, TestsOK, ConstantsOK, CodeNot, GoIfTrue, GoIfFalse, Exp2RK, CodeComp, WF, WFD;
    if e.ENot? {
      CompileOK(fs, e.e, P);
      CompileShape(fs, e.e, P);
      var (fs1, d) := Compile(fs, e.e);
      NotShape(fs1, d, e.e);
    } else if e.EAnd? || e.EOr? {
      LogicShape(fs, e, P);
    } else if e.ECmp? {
      CompareShape(fs, e, P);
    }
  }

  lemma {:induction false} LogicShape(fs: FS, e: Expr, P: set<int>)
    requires WF(fs, P) && Scoped(e, fs.nactvar) && (e.EAnd? || e.EOr?)
    ensures var (fs', d) := Compile(fs, e);
            Shaped(fs, fs', d, e)
    decreases e, 0
  {
    hide ListOK, TestsOK, ConstantsOK, CodeNot, GoIfTrue, GoIfFalse, Exp2RK, CodeComp, WF, WFD;
    CompileOK(fs, e.a, P);
    CompileShape(fs, e.a, P);
    var (fs1, d1) := Compile(fs, e.a);
    GoIfOK(fs1, d1, e.EAnd?, P, e.a);
    var (fs2, d2) := if e.EAnd? then GoIfTrue(fs1, d1) else GoIfFalse(fs1, d1);
    CompileShape(fs2, e.b, P + SetOf(if e.EAnd? then d2.f else d2.t));
  }

  lemma {:induction false} CompareShape(fs: FS, e: Expr, P: set<int>)
    requires WF(fs, P) && Scoped(e, fs.nactvar) && e.ECmp?
    ensures var (fs', d) := Compile(fs, e);
            Shaped(fs, fs', d, e)
    decreases e, 0
  {
    hide ListOK, TestsOK, ConstantsOK, CodeNot, GoIfTrue, GoIfFalse, Exp2RK, CodeComp, WF, WFD;
    CompileOK(fs, e.a, P);
    CompileShape(fs, e.a, P);
    var (fs1, d1) := Compile(fs, e.a);
    RKStep(fs1, d1, e.a, P);
    var (fs2, d2) := Exp2RK(fs1, d1);
    CompileOK(fs2, e.b, P);
    CompileShape(fs2, e.b, P);
    var (fs3, d3) := Compile(fs2, e.b);
    CompShape(fs3, e.op, d2, d3, e.b, P);
  }

  lemma NotShape(fs: FS, d: Desc, a: Expr)
    requires ShapeIs(d.k, ShapeOf(a)) && ((d.t != []) == Lists(a).0) && ((d.f != []) == Lists(a).1)
    ensures var (fs', d') := CodeNot(fs, d);
            && ShapeIs(d'.k, ShapeOf(ENot(a))) && fs'.k == fs.k
            && ((d'.t != []) == Lists(a).1) && ((d'.f != []) == Lists(a).0)
  {
    hide DropValues, Patch;
  }

  lemma GoIfOK(fs: FS, d: Desc, isAnd: bool, P: set<int>, a: Expr)
    requires WFD(fs, d, P) && Unplaced(fs, d)
    requires ShapeIs(d.k, ShapeOf(a)) && ((d.t != []) == Lists(a).0) && ((d.f != []) == Lists(a).1)
    ensures var (fs', d') := if isAnd then GoIfTrue(fs, d) else GoIfFalse(fs, d);
            var l := if isAnd then d'.f else d'.t;
            && WF(fs', P + SetOf(l)) && fs'.nactvar == fs.nactvar
            && (l != []) == (if isAnd then Lists(a).1 || !AlwaysTrue(ShapeOf(a))
                else Lists(a).0 || !AlwaysFalse(ShapeOf(a)))
            && fs'.k == if !isAnd && ShapeOf(a).SNum? then WithConstant(fs.k, Constant(ShapeOf(a))) else fs.k
  {
    hide ListOK, TestsOK, ConstantsOK, JumpIfFalse, JumpIfTrue;
    if isAnd { GoIfTrueOK(fs, d, P); } else { GoIfFalseOK(fs, d, P); }
    LeftShape(fs, DischargeVars(d), isAnd, P, ShapeOf(a));
  }

  lemma RKStep(fs: FS, d: Desc, a: Expr, P: set<int>)
    requires WFD(fs, d, P) && Unplaced(fs, d)
    requires ShapeIs(d.k, ShapeOf(a)) && ((d.t != []) == Lists(a).0) && ((d.f != []) == Lists(a).1)
    ensures var (fs', d') := Exp2RK(fs, d);
            && WF(fs', P) && fs'.nactvar == fs.nactvar && fs'.k == OperandConstants(a, fs.k)
            && (d'.k.VNonReloc? || (d'.k.VK? && d'.k.i <= MAXINDEXRK)) && d'.t == [] && d'.f == []
  {
    hide ListOK, TestsOK, ConstantsOK, Exp2RK;
    Exp2RKOK(fs, d, P);
    Exp2RKShape(fs, d, a, P);
    assert Pending(Exp2RK(fs, d).1, P) == P;
  }

  lemma CompShape(fs: FS, op: BinCmp, d1: Desc, d2: Desc, b: Expr, P: set<int>)
    requires (d1.k.VNonReloc? || (d1.k.VK? && d1.k.i <= MAXINDEXRK)) && d1.t == [] && d1.f == []
    requires WFD(fs, d2, P) && Unplaced(fs, d2)
    requires ShapeIs(d2.k, ShapeOf(b)) && ((d2.t != []) == Lists(b).0) && ((d2.f != []) == Lists(b).1)
    ensures var (fs', d) := CodeComp(fs, op, d1, d2);
            d.k.VJmp? && d.t == [] && d.f == [] && fs'.k == OperandConstants(b, fs.k)
  {
    hide ListOK, TestsOK, ConstantsOK, Exp2RK, Patch, CompInstr;
    Exp2RKDone(fs, d1);
    Exp2RKShape(fs, d2, b, P);
  }

  // ---------------------------------------------------------------------
  // The run through a whole expression

  /** How a run that stood at o before the expression stands after it. */
  function TrackOf(fs: FS, e: Expr, o: Outcome): Track {
    if Arrived(o, fs.here) then On(WayOf(e, o.r, HeldBy(o), fs.k), o.r) else Left(o)
  }

  lemma VarsRun(fs: FS, d: Desc, P: set<int>, s: int, r0: Regs, t: Track, base: int)
    requires WFD(fs, d, P) && RunToOK(fs, d, P, s, r0) && Unplaced(fs, d)
    requires Follows(fs, d, P, RunTo(fs, d, P, s, r0), t, base)
    ensures var d1 := DischargeVars(d);
            && WFD(fs, d1, P) && RunToOK(fs, d1, P, s, r0) && Unplaced(fs, d1) && !d1.k.VLocal?
            && Follows(fs, d1, P, RunTo(fs, d1, P, s, r0), t, base)
  {
    hide ListOK, TestsOK, ConstantsOK, Exec;
  }

  /** luaK_posfix for `and` and `or` does not change runs. */
  lemma JoinedRun(fs: FS, d: Desc, toF: bool, l: seq<int>, P: set<int>, s: int, r0: Regs)
    requires WFD(fs, d, P + SetOf(l)) && ListOK(fs.code, l) && SetOf(l) !! P && Unplaced(fs, d)
    requires RunToOK(fs, d, P + SetOf(l), s, r0)
    ensures var fs1 := Joined(fs, if toF then d.f else d.t, l);
            var d1 := JoinedDesc(d, toF, l);
            && WFD(fs1, d1, P) && RunToOK(fs1, d1, P, s, r0)
            && RunTo(fs1, d1, P, s, r0) == RunTo(fs, d, P + SetOf(l), s, r0)
            && fs1.here == fs.here
            && forall r :: ValueOf(fs1, d1.k, r) == ValueOf(fs, d.k, r) && Decided(fs1, d1.k, r) == Decided(fs, d.k, r)
  {
    hide TestsOK, ConstantsOK, Exec, ListOK, Link, ValueOf, Decided, KindOK;
    JoinDescOK(fs, d, toF, l, P);
    JoinedCode(fs, d, toF, l, P);
    var fs1, d1 := Joined(fs, if toF then d.f else d.t, l), JoinedDesc(d, toF, l);
    var A := Pending(d1, P) + SetOf(fs.here);
    ExecAgree(fs.code, fs.k, A, fs1.code, fs.k, A, s, EndOf(fs, d.k), r0);
    if EndOf(fs, d.k) == |fs.code| && |fs.code| > fs.lasttarget && |fs.code| > 0 && fs.code[|fs.code| - 1].LoadNil?
       && RunTo(fs, d, P + SetOf(l), s, r0).Fall? {
      ExecAgree(fs.code, fs.k, Pending(d1, P), fs1.code, fs.k, Pending(d1, P), s, |fs.code| - 1, r0);
    }
  }

  lemma JoinedCode(fs: FS, d: Desc, toF: bool, l: seq<int>, P: set<int>)
    requires WFD(fs, d, P + SetOf(l)) && ListOK(fs.code, l) && SetOf(l) !! P && Unplaced(fs, d)
    requires WFD(Joined(fs, if toF then d.f else d.t, l), JoinedDesc(d, toF, l), P)
    ensures var fs1 := Joined(fs, if toF then d.f else d.t, l);
            var d1 := JoinedDesc(d, toF, l);
            && Pending(d1, P) == Pending(d, P + SetOf(l))
            && EndOf(fs1, d1.k) == EndOf(fs, d.k) <= |fs.code|
            && (forall i :: 0 <= i < |fs.code| ==>
                  fs1.code[i] == fs.code[i] || (i in Pending(d1, P) && fs.code[i].Jmp? && fs1.code[i].Jmp?))
            && forall r :: ValueOf(fs1, d1.k, r) == ValueOf(fs, d.k, r) && Decided(fs1, d1.k, r) == Decided(fs, d.k, r)
  {
    hide TestsOK, ConstantsOK;
    var keep := if toF then d.f else d.t;
    var d1 := JoinedDesc(d, toF, l);
    assert SetOf(keep) !! SetOf(l);
    LinkOK(fs.code, keep, l);
    assert forall j :: j in keep ==> j in SetOf(keep);
    assert Pending(d1, P) == Pending(d, P + SetOf(l));
  }

  /** The way of `a and b` (`a or b`), from those of its operands. */
  lemma JoinFollows(fs: FS, e: Expr, o: Outcome, fs2: FS, o2: Outcome, l: seq<int>,
                    fs3: FS, d3: Desc, fs4: FS, o3: Outcome, P: set<int>, base: int)
    requires e.EAnd? || e.EOr?
    requires WFD(fs3, d3, P + SetOf(l)) && WFD(fs4, JoinedDesc(d3, e.EAnd?, l), P) && fs4.here == fs3.here
    requires forall r :: ValueOf(fs4, JoinedDesc(d3, e.EAnd?, l).k, r) == ValueOf(fs3, d3.k, r)
                         && Decided(fs4, JoinedDesc(d3, e.EAnd?, l).k, r) == Decided(fs3, d3.k, r)
    requires Scoped(e, base) && fs2.k == BeforeRight(e, fs.k)
    requires forall j :: j in l ==> j !in fs2.here
    requires forall j :: j in P ==> j !in fs2.here
    requires Continues(o2, fs2.here, l, e.EAnd?,
                       AfterLeft(e.EAnd?, ShapeOf(e.a), TrackOf(fs, e.a, o)), P, base)
    requires Follows(fs3, d3, P + SetOf(l), o3, TrackOf(fs2, e.b, o2), base)
    ensures Follows(fs4, JoinedDesc(d3, e.EAnd?, l), P, o3, TrackOf(fs, e, o), base)
  {
    JoinTrack(fs, e, o);
    hide WFD, ValueOf, Decided, WayOf, AfterLeft, ShapeOf, BeforeRight;
    var d4 := JoinedDesc(d3, e.EAnd?, l);
    assert forall j :: j in l ==> if e.EAnd? then j in d4.f else j in d4.t;
    var t := AfterLeft(e.EAnd?, ShapeOf(e.a), TrackOf(fs, e.a, o));
    if t.On? && t.w.Through? {
      WayAgrees(e.b, t.r, o2.r, t.w.held, fs2.k, base);
      KeptFollows(fs3, d3, fs4, e.EAnd?, l, P, o3, WayOf(e.b, t.r, t.w.held, fs2.k), o2.r, t.r, base);
    }
  }

  lemma KeptFollows(fs: FS, d: Desc, fs': FS, toF: bool, l: seq<int>, P: set<int>,
                    o: Outcome, w: Way, r: Regs, r': Regs, base: int)
    requires WFD(fs, d, P + SetOf(l)) && WFD(fs', JoinedDesc(d, toF, l), P) && fs'.here == fs.here
    requires forall x :: ValueOf(fs', JoinedDesc(d, toF, l).k, x) == ValueOf(fs, d.k, x)
                         && Decided(fs', JoinedDesc(d, toF, l).k, x) == Decided(fs, d.k, x)
    requires Follows(fs, d, P + SetOf(l), o, On(w, r), base) && Agree(r, r', base)
    ensures Follows(fs', JoinedDesc(d, toF, l), P, o, On(w, r'), base)
  {
    hide WFD, ValueOf, Decided;
    var d' := JoinedDesc(d, toF, l);
    assert forall j :: j in d.t ==> j in d'.t;
    assert forall j :: j in d.f ==> j in d'.f;
  }

  lemma JoinTrack(fs: FS, e: Expr, o: Outcome)
    requires e.EAnd? || e.EOr?
    ensures var t := AfterLeft(e.EAnd?, ShapeOf(e.a), TrackOf(fs, e.a, o));
            TrackOf(fs, e, o)
            == if t.On? && t.w.Through? then On(WayOf(e.b, t.r, t.w.held, BeforeRight(e, fs.k)), t.r) else t
  {
  }

  lemma {:induction false} CompileRun(fs: FS, e: Expr, P: set<int>, s: int, r0: Regs)
    requires WF(fs, P) && Scoped(e, fs.nactvar) && RunOK(fs, P, s, r0)
    ensures var (fs', d) := Compile(fs, e);
            && WFD(fs', d, P) && RunToOK(fs', d, P, s, r0)
            && Follows(fs', d, P, RunTo(fs', d, P, s, r0), TrackOf(fs, e, RunOf(fs, P, s, r0)), fs.freereg)
    decreases e, 1
  {
    hide ListOK, TestsOK, ConstantsOK, Exec, CodeNot;
    var o := RunOf(fs, P, s, r0);
    if e.ENot? {
      CompileRun(fs, e.e, P, s, r0);
      CompileOK(fs, e.e, P);
      CompileShape(fs, e.e, P);
      var (fs1, d) := Compile(fs, e.e);
      NotRun(fs1, d, P, s, r0, TrackOf(fs, e.e, o), fs.freereg, ShapeOf(e.e));
    } else if e.EAnd? || e.EOr? {
      CompileLogicRun(fs, e, P, s, r0);
    } else if e.ECmp? {
      CompileCompRun(fs, e, P, s, r0);
    } else {
      LeafRun(fs, e, P, s, r0);
    }
  }

  lemma LeafOK(fs: FS, e: Expr, P: set<int>)
    requires WF(fs, P) && Scoped(e, fs.nactvar) && !e.ENot? && !e.EAnd? && !e.EOr? && !e.ECmp?
    ensures var (fs', d) := Compile(fs, e);
            fs' == fs && WFD(fs, d, P) && d.t == [] && d.f == [] && Pending(d, P) == P && EndOf(fs, d.k) == |fs.code|
  {
    hide TestsOK, ConstantsOK;
  }

  lemma LeafOutcome(fs: FS, d: Desc, P: set<int>, s: int, r0: Regs)
    requires WFD(fs, d, P) && Pending(d, P) == P && EndOf(fs, d.k) == |fs.code|
    ensures RunTo(fs, d, P, s, r0) == RunOf(fs, P, s, r0)
  {
    hide WF, Exec, ListOK;
  }

  lemma LeftByPending(fs: FS, P: set<int>, s: int, r0: Regs)
    requires RunOK(fs, P, s, r0) && !Arrived(RunOf(fs, P, s, r0), fs.here)
    ensures LeftBy(RunOf(fs, P, s, r0), P)
  {
    hide Exec;
    var o := RunOf(fs, P, s, r0);
    if o.Exit? {
      ExitCarries(fs.code, fs.k, P + SetOf(fs.here), s, |fs.code|, r0);
      assert o.at in P + SetOf(fs.here);
    }
  }

  lemma LeafWay(fs: FS, e: Expr, r: Regs, held: Option<Value>)
    requires !e.ENot? && !e.EAnd? && !e.EOr? && !e.ECmp?
    ensures var (fs', d) := Compile(fs, e);
            var w := WayOf(e, r, held, fs.k);
            w.Through? && w.held == held && Decided(fs, d.k, r) && ValueOf(fs, d.k, r) == Some(w.v)
  {
  }

  lemma LeafRun(fs: FS, e: Expr, P: set<int>, s: int, r0: Regs)
    requires WF(fs, P) && Scoped(e, fs.nactvar) && RunOK(fs, P, s, r0)
    requires !e.ENot? && !e.EAnd? && !e.EOr? && !e.ECmp?
    ensures var (fs', d) := Compile(fs, e);
            && WFD(fs', d, P) && RunToOK(fs', d, P, s, r0)
            && Follows(fs', d, P, RunTo(fs', d, P, s, r0), TrackOf(fs, e, RunOf(fs, P, s, r0)), fs.freereg)
  {
    LeafOK(fs, e, P);
    hide WF, WFD, NilOK, RunOf, Compile, ValueOf, Decided, WayOf;
    var (fs', d) := Compile(fs, e);
    var o := RunOf(fs, P, s, r0);
    if Arrived(o, fs.here) { LeafWay(fs, e, o.r, HeldBy(o)); }
    LeafOutcome(fs, d, P, s, r0);
    assert RunToOK(fs, d, P, s, r0);
    if !Arrived(o, fs.here) { LeftByPending(fs, P, s, r0); }
  }

  lemma NotRun(fs: FS, d: Desc, P: set<int>, s: int, r0: Regs, t: Track, base: int, sh: Shape)
    requires WFD(fs, d, P) && RunToOK(fs, d, P, s, r0) && Unplaced(fs, d)
    requires Follows(fs, d, P, RunTo(fs, d, P, s, r0), t, base) && ShapeIs(d.k, sh) && base <= fs.freereg
    ensures var (fs', d') := CodeNot(fs, d);
            && WFD(fs', d', P) && RunToOK(fs', d', P, s, r0)
            && Follows(fs', d', P, RunTo(fs', d', P, s, r0), AfterNot(sh, t), base)
  {
    hide ListOK, TestsOK, ConstantsOK, Exec, NegateValue, WFD, RunToOK, Follows;
    VarsRun(fs, d, P, s, r0, t, base);
    CodeNotRun(fs, DischargeVars(d), P, s, r0, t, base, sh);
    assert CodeNot(fs, DischargeVars(d)) == CodeNot(fs, d);
  }

  lemma {:induction false} CompileLogicRun(fs: FS, e: Expr, P: set<int>, s: int, r0: Regs)
    requires WF(fs, P) && Scoped(e, fs.nactvar) && RunOK(fs, P, s, r0) && (e.EAnd? || e.EOr?)
    ensures var (fs', d) := Compile(fs, e);
            && WFD(fs', d, P) && RunToOK(fs', d, P, s, r0)
            && Follows(fs', d, P, RunTo(fs', d, P, s, r0), TrackOf(fs, e, RunOf(fs, P, s, r0)), fs.freereg)
    decreases e, 0
  {
    hide ListOK, TestsOK, ConstantsOK, Exec, WFD, RunToOK, Follows, GoIfTrue, GoIfFalse;
    var o := RunOf(fs, P, s, r0);
    CompileRun(fs, e.a, P, s, r0);
    CompileOK(fs, e.a, P);
    CompileShape(fs, e.a, P);
    var (fs1, d1) := Compile(fs, e.a);
    GoIfRun(fs1, d1, e.EAnd?, P, s, r0, TrackOf(fs, e.a, o), fs.freereg, ShapeOf(e.a));
    GoIfOK(fs1, d1, e.EAnd?, P, e.a);
    var (fs2, d2) := if e.EAnd? then GoIfTrue(fs1, d1) else GoIfFalse(fs1, d1);
    var l := if e.EAnd? then d2.f else d2.t;
    CompileRun(fs2, e.b, P + SetOf(l), s, r0);
    CompileOK(fs2, e.b, P + SetOf(l));
    RightRun(fs, e, o, fs2, l, P, s, r0, fs.freereg);
  }

  lemma GoIfRun(fs: FS, d: Desc, isAnd: bool, P: set<int>, s: int, r0: Regs, t: Track, base: int, sh: Shape)
    requires WFD(fs, d, P) && RunToOK(fs, d, P, s, r0) && Unplaced(fs, d)
    requires Follows(fs, d, P, RunTo(fs, d, P, s, r0), t, base) && ShapeIs(d.k, sh) && base <= fs.freereg
    ensures var (fs', d') := if isAnd then GoIfTrue(fs, d) else GoIfFalse(fs, d);
            var l := if isAnd then d'.f else d'.t;
            && Continues(RunOf(fs', P + SetOf(l), s, r0), fs'.here, l, isAnd, AfterLeft(isAnd, sh, t), P, base)
            && RunOK(fs', P + SetOf(l), s, r0)
            && NewList(fs, fs', l, P)
  {
    hide ListOK, TestsOK, ConstantsOK, Exec, JumpIfTrue, JumpIfFalse, JoinLists, WFD, RunToOK, Follows, Continues;
    hide RunOK, NewList;
    VarsRun(fs, d, P, s, r0, t, base);
    LeftOperandRun(fs, DischargeVars(d), isAnd, P, s, r0, t, base, sh);
    if isAnd { GoIfTrueOK(fs, d, P); } else { GoIfFalseOK(fs, d, P); }
  }

  lemma RightRun(fs: FS, e: Expr, o: Outcome, fs2: FS, l: seq<int>, P: set<int>, s: int, r0: Regs, base: int)
    requires e.EAnd? || e.EOr?
    requires WF(fs2, P + SetOf(l)) && ListOK(fs2.code, l) && SetOf(l) !! P
    requires Scoped(e, fs2.nactvar) && fs2.nactvar <= base && fs2.k == BeforeRight(e, fs.k) && fs2.freereg == base
    requires Continues(RunOf(fs2, P + SetOf(l), s, r0), fs2.here, l, e.EAnd?,
                       AfterLeft(e.EAnd?, ShapeOf(e.a), TrackOf(fs, e.a, o)), P, base)
    requires var (fs3, d3) := Compile(fs2, e.b);
             && WFD(fs3, d3, P + SetOf(l)) && RunToOK(fs3, d3, P + SetOf(l), s, r0) && Unplaced(fs3, d3)
             && Frame(fs2, fs3, P + SetOf(l))
             && Follows(fs3, d3, P + SetOf(l), RunTo(fs3, d3, P + SetOf(l), s, r0),
                        TrackOf(fs2, e.b, RunOf(fs2, P + SetOf(l), s, r0)), base)
    ensures var (fs3, d3) := Compile(fs2, e.b);
            var fs4 := Joined(fs3, if e.EAnd? then d3.f else d3.t, l);
            var d4 := JoinedDesc(d3, e.EAnd?, l);
            && WFD(fs4, d4, P) && RunToOK(fs4, d4, P, s, r0)
            && Follows(fs4, d4, P, RunTo(fs4, d4, P, s, r0), TrackOf(fs, e, o), base)
  {
    var (fs3, d3) := Compile(fs2, e.b);
    ScopedMore(e, fs2.nactvar, base);
    KeptList(fs2, fs3, l, P);
    hide ListOK, TestsOK, ConstantsOK, Exec, WFD, RunToOK, Follows, Compile, Continues, WayOf, Joined;
    var l' := if e.EAnd? then d3.f else d3.t;
    JoinedRun(fs3, d3, e.EAnd?, l, P, s, r0);
    JoinFollows(fs, e, o, fs2, RunOf(fs2, P + SetOf(l), s, r0), l, fs3, d3, Joined(fs3, l', l),
                RunTo(fs3, d3, P + SetOf(l), s, r0), P, base);
  }

  lemma KeptList(fs: FS, fs': FS, l: seq<int>, P: set<int>)
    requires WF(fs, P + SetOf(l)) && Frame(fs, fs', P + SetOf(l)) && ListOK(fs.code, l)
    ensures ListOK(fs'.code, l)
    ensures forall j :: j in l || j in P ==> j !in fs.here
  {
    assert forall j :: j in l ==> j in P + SetOf(l);
    ListKept(fs.code, fs'.code, l);
  }

  lemma {:induction false} ScopedMore(e: Expr, n: int, m: int)
    requires Scoped(e, n) && n <= m
    ensures Scoped(e, m)
  {
    match e
    case ENot(a) => ScopedMore(a, n, m);
    case EAnd(a, b) => ScopedMore(a, n, m); ScopedMore(b, n, m);
    case EOr(a, b) => ScopedMore(a, n, m); ScopedMore(b, n, m);
    case ECmp(_, a, b) => ScopedMore(a, n, m); ScopedMore(b, n, m);
    case _ =>
  }

  lemma CompInstrMeans(op: BinCmp, o1: RK, o2: RK, k: seq<Value>, r: Regs, x: Value, y: Value)
    requires Operand(k, r, o1) == Some(x) && Operand(k, r, o2) == Some(y)
    ensures EffectOf(CompInstr(op, o1, o2), k, r)
            == match CompareValues(op, x, y) case None => Raises case Some(b) => Tested(b)
  {
  }

  /** The run to a comparison of an operand with value x and one on its way. */
  ghost predicate Compares(o': Outcome, fs': FS, d: Desc, t: Track, P: set<int>, base: int, op: BinCmp, x: Value)
    requires d.k.VJmp? && 1 <= d.k.pc < |fs'.code|
  {
    match t
    case Left(o) => o' == o && LeftBy(o', P)
    case On(w, r) =>
      if Closed(w).None? then o'.Fault?
      else
        && o'.Fall? && Agree(o'.r, r, base) && Decided(fs', d.k, o'.r)
        && ValueOf(fs', d.k, o'.r)
           == match CompareValues(op, x, Closed(w).value) case None => None case Some(b) => Some(Boolean(b))
  }

  lemma CompEndRun(fs: FS, op: BinCmp, d1: Desc, d2: Desc, P: set<int>, s: int, r0: Regs, t: Track, base: int, x: Value)
    requires WF(fs, P) && RunOK(fs, P, s, r0)
    requires (d1.k.VNonReloc? && d1.k.reg < base && d1.k.reg >= 0) || (d1.k.VK? && 0 <= d1.k.i < |fs.k|)
    requires d2.k.VNonReloc? || (d2.k.VK? && 0 <= d2.k.i < |fs.k|)
    requires exists ready :: Operated(RunOf(fs, P, s, r0), fs, d2, t, P, base, ready)
    requires t.On? ==> ValueOf(fs, d1.k, t.r) == Some(x)
    ensures var (fs', l) := CondJump(fs, CompInstr(op, OperandOf(d1), OperandOf(d2)));
            var d := Desc(VJmp(l[0]), [], []);
            && l == [|fs.code| + 1] && |fs'.code| == |fs.code| + 2
            && !RunTo(fs', d, P, s, r0).Stuck?
            && Compares(RunTo(fs', d, P, s, r0), fs', d, t, P, base, op, x)
  {
    hide ListOK, TestsOK, ConstantsOK, Exec, CondJump, CompInstr, Patch;
    var o := RunOf(fs, P, s, r0);
    var i := CompInstr(op, OperandOf(d1), OperandOf(d2));
    assert IsTest(i) by { CompIsComp(op, OperandOf(d1), OperandOf(d2)); }
    CondJumpOK(fs, i, P);
    CondJumpRun(fs, i, P, s, r0);
    assert P + SetOf([]) + SetOf([]) + SetOf([]) == P;
    if t.On? && Closed(t.w).Some? {
      assert ValueOf(fs, d1.k, o.r) == Some(x);
      CompInstrMeans(op, OperandOf(d1), OperandOf(d2), fs.k, o.r, x, Closed(t.w).value);
    } else {
      assert !Arrived(o, fs.here) by {
        if t.Left? && o.Exit? { assert o.at in P; }
      }
    }
  }

  lemma CompIsComp(op: BinCmp, o1: RK, o2: RK)
    ensures CompInstr(op, o1, o2).Comp?
  {
  }

  lemma CodeCompRun(fs: FS, op: BinCmp, d1: Desc, d2: Desc, P: set<int>, s: int, r0: Regs, t: Track, base: int,
                    x: Value)
    requires WFD(fs, d1, P) && WFD(fs, d2, P) && Unplaced(fs, d2)
    requires (d1.k.VNonReloc? && d1.k.reg < base) || (d1.k.VK? && d1.k.i <= MAXINDEXRK)
    requires d1.t == [] && d1.f == [] && base <= fs.freereg
    requires RunToOK(fs, d2, P, s, r0) && Follows(fs, d2, P, RunTo(fs, d2, P, s, r0), t, base)
    requires t.On? ==> ValueOf(fs, d1.k, t.r) == Some(x)
    ensures var (fs', d) := CodeComp(fs, op, d1, d2);
            && WFD(fs', d, P) && RunToOK(fs', d, P, s, r0) && d.k.VJmp?
            && Compares(RunTo(fs', d, P, s, r0), fs', d, t, P, base, op, x)
  {
    hide ListOK, TestsOK, ConstantsOK, Exec, Exp2RK, CondJump, CompInstr, Follows, Operated, Compares;
    CodeCompOK(fs, op, d1, d2, P);
    Exp2RKDone(fs, d1);
    Exp2RKOK(fs, d2, P);
    Exp2RKRun(fs, d2, P, s, r0, t, base);
    var (fs2, e2) := Exp2RK(fs, d2);
    var fs3 := FreeExp(FreeExp(fs2, e2), d1);
    SameRun(fs2, fs3, e2, P, s, r0, t, base, Ready(fs, d2) || (!HasJumps(d2) && IsConst(d2.k) && |fs.k| <= MAXINDEXRK));
    CompEndRun(fs3, op, d1, e2, P, s, r0, t, base, x);
  }

  lemma SameRun(fs: FS, fs': FS, d: Desc, P: set<int>, s: int, r0: Regs, t: Track, base: int, ready: bool)
    requires fs' == fs.(freereg := fs'.freereg) && WFD(fs, d, P) && 0 <= fs.nactvar <= fs'.freereg
               && RunOK(fs, P, s, r0)
    requires d.k.VNonReloc? || (d.k.VK? && 0 <= d.k.i < |fs.k|)
    requires Operated(RunOf(fs, P, s, r0), fs, d, t, P, base, ready)
    ensures Operated(RunOf(fs', P, s, r0), fs', d, t, P, base, ready)
    ensures WF(fs', P) && RunOK(fs', P, s, r0)
  {
    assert forall j :: j in P ==> j in Pending(d, P);
  }

  lemma {:induction false} CompileCompRun(fs: FS, e: Expr, P: set<int>, s: int, r0: Regs)
    requires WF(fs, P) && Scoped(e, fs.nactvar) && RunOK(fs, P, s, r0) && e.ECmp?
    ensures var (fs', d) := Compile(fs, e);
            && WFD(fs', d, P) && RunToOK(fs', d, P, s, r0)
            && Follows(fs', d, P, RunTo(fs', d, P, s, r0), TrackOf(fs, e, RunOf(fs, P, s, r0)), fs.freereg)
    decreases e, 0
  {
    hide ListOK, TestsOK, ConstantsOK, Exec, Exp2RK, CodeComp, WFD, RunToOK, Follows, Operated, Compares, WayOf;
    var o := RunOf(fs, P, s, r0);
    CompileRun(fs, e.a, P, s, r0);
    CompileOK(fs, e.a, P);
    CompileShape(fs, e.a, P);
    var (fs1, d1) := Compile(fs, e.a);
    Exp2RKOK(fs1, d1, P);
    Exp2RKRun(fs1, d1, P, s, r0, TrackOf(fs, e.a, o), fs.freereg);
    Exp2RKShape(fs1, d1, e.a, P);
    var (fs2, d2) := Exp2RK(fs1, d1);
    RKStep(fs1, d1, e.a, P);
    CompileRun(fs2, e.b, P, s, r0);
    CompileOK(fs2, e.b, P);
    CompareRun(fs, e, o, fs2, d2, P, s, r0, fs.freereg);
  }

  lemma CompareRun(fs: FS, e: Expr, o: Outcome, fs2: FS, d2: Desc, P: set<int>, s: int, r0: Regs, base: int)
    requires e.ECmp? && Scoped(e, fs2.nactvar) && fs2.nactvar <= base <= fs2.freereg
    requires WFD(fs2, d2, P) && d2.t == [] && d2.f == []
    requires (d2.k.VNonReloc? && (d2.k.reg >= fs2.nactvar ==> d2.k.reg == fs2.freereg - 1))
               || (d2.k.VK? && 0 <= d2.k.i <= MAXINDEXRK)
    requires fs2.k == BeforeRight(e, fs.k)
    requires Operated(RunOf(fs2, P, s, r0), fs2, d2, TrackOf(fs, e.a, o), P, base, NoCode(e.a, Constants(e.a, fs.k)))
    requires var (fs3, d3) := Compile(fs2, e.b);
             && WFD(fs3, d3, P) && RunToOK(fs3, d3, P, s, r0) && Unplaced(fs3, d3)
             && Frame(fs2, fs3, P) && fs3.freereg == fs2.freereg
             && Follows(fs3, d3, P, RunTo(fs3, d3, P, s, r0), TrackOf(fs2, e.b, RunOf(fs2, P, s, r0)), fs2.freereg)
    ensures var (fs3, d3) := Compile(fs2, e.b);
            var (fs', d) := CodeComp(fs3, e.op, d2, d3);
            && WFD(fs', d, P) && RunToOK(fs', d, P, s, r0)
            && Follows(fs', d, P, RunTo(fs', d, P, s, r0), TrackOf(fs, e, o), base)
  {
    hide TestsOK, ConstantsOK, Exec, CodeComp, RunToOK, Compile, ListOK, Follows, Compares;
    var (fs3, d3) := Compile(fs2, e.b);
    var o2 := RunOf(fs2, P, s, r0);
    var t2 := TrackOf(fs2, e.b, o2);
    assert WFD(fs3, d2, P) by {
      EmptyListOK(fs3.code);
      assert Pending(d2, P) == P;
      assert forall j :: j in P ==> j in Pending(d3, P);
    }
    var x := if t2.On? then ValueOf(fs3, d2.k, o2.r).value else Nil;
    CodeCompRun(fs3, e.op, d2, d3, P, s, r0, t2, fs2.freereg, x);
    assert t2.On? ==> Some(x) == ValueOf(fs2, d2.k, o2.r);
    var (fs', d) := CodeComp(fs3, e.op, d2, d3);
    CompareFollows(fs, e, o, fs2, d2, o2, fs', d, RunTo(fs', d, P, s, r0), P, base, x);
  }

  lemma CompareFollows(fs: FS, e: Expr, o: Outcome, fs2: FS, d2: Desc, o2: Outcome,
                       fs': FS, d: Desc, o': Outcome, P: set<int>, base: int, x: Value)
    requires e.ECmp? && Scoped(e, fs2.nactvar) && fs2.nactvar <= base <= fs2.freereg
    requires WFD(fs2, d2, P) && WFD(fs', d, P) && d.k.VJmp?
    requires d2.k.VNonReloc? || d2.k.VK?
    requires fs2.k == BeforeRight(e, fs.k)
    requires Operated(o2, fs2, d2, TrackOf(fs, e.a, o), P, base, NoCode(e.a, Constants(e.a, fs.k)))
    requires Compares(o', fs', d, TrackOf(fs2, e.b, o2), P, fs2.freereg, e.op, x)
    requires TrackOf(fs2, e.b, o2).On? ==> Some(x) == ValueOf(fs2, d2.k, o2.r)
    ensures Follows(fs', d, P, o', TrackOf(fs, e, o), base)
  {
    hide TestsOK, ConstantsOK, ListOK, ValueOf, Decided, Negated, KindOK;
    assert forall j :: j in P ==> j in Pending(d2, P);
    var t := TrackOf(fs, e.a, o);
    if t.On? && Closed(t.w).Some? {
      WayAgrees(e.b, t.r, o2.r, HeldBy(o2), fs2.k, fs2.nactvar);
    }
  }
}
