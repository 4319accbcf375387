/** The code generator against the virtual machine: whole functions, local
    assignments and conditions. */
module CodeGenTheorems {
  import opened Options
  import opened LuaValue
  import opened Bytecode
  import opened Expr
  import opened CodeGen
  import opened CodeGenStatic
  import opened CodeGenRun
  import opened CodeGenWays
  import opened CodeGenLogic
  import opened CodeGenCorrect
  import opened Delivery
  import opened DeliveryExact

  /** open_func with n parameters. */
  function NewFunction(n: nat): FS {
    FS([], [], map[], [], -1, n, n)
  }

  /** The registers of a new call: nil above the parameters. */
  ghost predicate Fresh(r: Regs, n: int) {
    forall i :: i >= n ==> Get(r, i) == Nil
  }

  function Result(v: Option<Value>): Machine {
    if v.Some? then Done(v.value) else Error
  }

  lemma StartOK(n: nat, r: Regs)
    requires Fresh(r, n)
    ensures WF(NewFunction(n), {}) && RunOK(NewFunction(n), {}, 0, r)
    ensures RunOf(NewFunction(n), {}, 0, r) == Fall(r)
  {
  }

  /** Emitting the RETURN turns the arrival of the run into its result. */
  lemma ReturnRun(fs: FS, reg: int, r0: Regs, v: Option<Value>) returns (m: nat)
    requires WF(fs, {}) && RunOK(fs, {}, 0, r0)
    requires var o := RunOf(fs, {}, 0, r0);
             if v.Some? then Arrived(o, fs.here) && Get(o.r, reg) == v.value else o.Fault?
    ensures Run(Emit(fs, Return(reg)).code, fs.k, Running(0, r0), m) == Result(v)
  {
    var n := |fs.code|;
    var c, c' := Patch(fs.code, fs.here, n, NO_REG, n), Emit(fs, Return(reg)).code;
    SettleRun(fs, {}, 0, r0);
    ExecAgree(c, fs.k, {}, c', fs.k, {}, 0, n, r0);
    var m0 := ExecIsRun(c', fs.k, 0, n, r0);
    if v.Some? {
      m := m0 + 1;
      var r1 := RunOf(fs, {}, 0, r0).r;
      RunAdd(c', fs.k, Running(0, r0), m0, 1);
      assert Step(c', fs.k, n, r1) == Done(v.value);
      assert Run(c', fs.k, Done(v.value), 0) == Done(v.value);
      assert Run(c', fs.k, Running(n, r1), 1) == Done(v.value);
    } else {
      m := m0;
    }
  }

  /** A function `return e` of n parameters, called with any arguments,
      returns the delivered value, or raises the order error. */
  lemma ReturnDelivers(n: nat, e: Expr, r: Regs) returns (m: nat)
    requires Scoped(e, n) && Fresh(r, n)
    ensures var fs := CompileReturn(NewFunction(n), e);
            && Run(fs.code, fs.k, Running(0, r), m) == Result(Delivered(e, r, []))
            && fs.here == []
  {
    hide ListOK, TestsOK, ConstantsOK, Exec, Compile, Exp2AnyReg, WayOf;
    var fs := NewFunction(n);
    StartOK(n, r);
    CompileOK(fs, e, {});
    CompileRun(fs, e, {}, 0, r);
    var (fs1, d) := Compile(fs, e);
    var t := TrackOf(fs, e, Fall(r));
    Exp2AnyRegOK(fs1, d, {});
    Exp2AnyRegRun(fs1, d, {}, 0, r, t, n);
    var (fs2, d2) := Exp2AnyReg(fs1, d);
    assert Pending(d2, {}) == {};
    m := ReturnRun(fs2, d2.k.reg, r, Delivered(e, r, []));
  }

  /** A function whose expression is safe returns its meaning. */
  lemma ReturnCorrect(n: nat, e: Expr, r: Regs) returns (m: nat)
    requires Scoped(e, n) && Fresh(r, n) && Safe(e, [])
    ensures var fs := CompileReturn(NewFunction(n), e);
            Run(fs.code, fs.k, Running(0, r), m) == Result(Eval(e, r))
  {
    m := ReturnDelivers(n, e, r);
    SafeDelivers(e, r, []);
  }

  /** A function whose run has no comparison that comes out wrong returns the
      meaning of its expression if and only if the run does not end held. */
  lemma ReturnExact(n: nat, e: Expr, r: Regs) returns (m: nat)
    requires Scoped(e, n) && Fresh(r, n) && RunSafe(e, r, None, [])
    ensures var fs := CompileReturn(NewFunction(n), e);
            var end := Run(fs.code, fs.k, Running(0, r), m);
            (end.Done? || end == Error) && (end == Result(Eval(e, r)) <==> !EndsHeld(e, r, None, []))
  {
    m := ReturnDelivers(n, e, r);
    RunExact(e, r, None, []);
  }

  /** `return (x or y) and false and z` returns x when x is true. */
  lemma WrongReturn(r: Regs) returns (m: nat)
    requires Fresh(r, 3) && !IsFalse(Get(r, 0))
    ensures var e := EAnd(EAnd(EOr(ELocal(0), ELocal(1)), EFalse), ELocal(2));
            var fs := CompileReturn(NewFunction(3), e);
            Run(fs.code, fs.k, Running(0, r), m) == Done(Get(r, 0)) && Eval(e, r) == Some(Boolean(false))
  {
    hide CompileReturn, Run;
    m := ReturnDelivers(3, EAnd(EAnd(EOr(ELocal(0), ELocal(1)), EFalse), ELocal(2)), r);
    WrongForTrueLeft(0, 1, 2, r, []);
  }

  /** luaK_storevar on a local: the run arrives with the delivered value in
      the variable and every other register below the free ones unchanged. */
  lemma AssignDelivers(fs: FS, x: int, e: Expr, s: int, r0: Regs)
    requires WF(fs, {}) && Scoped(e, fs.nactvar) && 0 <= x < fs.nactvar && RunOK(fs, {}, s, r0)
    requires Arrived(RunOf(fs, {}, s, r0), fs.here)
    ensures var o := RunOf(fs, {}, s, r0);
            var v := Closed(WayOf(e, o.r, HeldBy(o), fs.k));
            var fs' := CompileAssign(fs, x, e);
            var o' := RunOf(fs', {}, s, r0);
            && WF(fs', {}) && RunOK(fs', {}, s, r0)
            && if v.None? then o'.Fault? else
               && Arrived(o', fs'.here) && Get(o'.r, x) == v.value
               && forall i :: 0 <= i < fs.freereg && i != x ==> Get(o'.r, i) == Get(o.r, i)
  {
    hide ListOK, TestsOK, ConstantsOK, Exec, Compile, Exp2Reg, WayOf;
    CompileOK(fs, e, {});
    CompileRun(fs, e, {}, s, r0);
    var (fs1, d) := Compile(fs, e);
    assert FreeExp(fs1, d) == fs1;
    Exp2RegOK(fs1, d, x, {});
    Exp2RegRun(fs1, d, x, {}, s, r0, TrackOf(fs, e, RunOf(fs, {}, s, r0)), fs.freereg);
  }

  /** cond: nil counts as false, then the condition is jumped on. */
  function CompileCond(fs: FS, e: Expr): (FS, Desc) {
    var (fs1, d) := Compile(fs, e);
    GoIfTrue(fs1, if d.k.VNil? then d.(k := VFalse) else d)
  }

  function CondShape(sh: Shape): Shape {
    if sh.SNil? then SFalse else sh
  }

  function CondMeaning(sh: Shape, v: Option<Value>): Option<Value> {
    if sh.SNil? && v == Some(Nil) then Some(Boolean(false)) else v
  }

  function CondTrack(sh: Shape, t: Track): Track {
    if sh.SNil? && t.On? && t.w.Through? then On(Through(Boolean(false), t.w.held), t.r) else t
  }

  /** A condition, compiled anywhere in a function, goes the way that the
      delivered way says: into its block, out by its false list, or to the
      order error. */
  lemma CondGoes(fs: FS, e: Expr, s: int, r0: Regs)
    requires WF(fs, {}) && Scoped(e, fs.nactvar) && RunOK(fs, {}, s, r0)
    requires Arrived(RunOf(fs, {}, s, r0), fs.here)
    ensures var o := RunOf(fs, {}, s, r0);
            var (fs', d) := CompileCond(fs, e);
            var o' := RunOf(fs', SetOf(d.f), s, r0);
            match IfTrue(CondShape(ShapeOf(e)), CondTrack(ShapeOf(e), TrackOf(fs, e, o)).w)
            case Through(_, _) => Arrived(o', fs'.here) && Agree(o'.r, o.r, fs.freereg)
            case Failed => o'.Fault?
            case _ => o'.Exit? && o'.at in d.f && Agree(o'.r, o.r, fs.freereg)
  {
    hide ListOK, TestsOK, ConstantsOK, Exec, Compile, GoIfTrue, WayOf, WFD, RunToOK, Follows, IfTrue, WF;
    CompileOK(fs, e, {});
    CompileRun(fs, e, {}, s, r0);
    CompileShape(fs, e, {});
    var (fs1, d) := Compile(fs, e);
    var sh, t := ShapeOf(e), TrackOf(fs, e, RunOf(fs, {}, s, r0));
    NilIsFalse(fs1, d, s, r0, t, fs.freereg, sh);
    var d1 := if d.k.VNil? then d.(k := VFalse) else d;
    GoIfRun(fs1, d1, true, {}, s, r0, CondTrack(sh, t), fs.freereg, CondShape(sh));
    var l := GoIfTrue(fs1, d1).1.f;
    assert {} + SetOf(l) == SetOf(l);
    NoTrueExit(CondShape(sh), CondTrack(sh, t).w);
  }

  lemma NoTrueExit(s: Shape, w: Way)
    ensures !IfTrue(s, w).TrueExit?
  {
  }

  /** Unless a comparison comes out wrong, a condition falls into its
      block if it is true and leaves by its false list if it is false, even
      where a value would be wrong. */
  lemma CondTurns(fs: FS, e: Expr, s: int, r0: Regs)
    requires WF(fs, {}) && Scoped(e, fs.nactvar) && RunOK(fs, {}, s, r0)
    requires var o := RunOf(fs, {}, s, r0); Arrived(o, fs.here) && RunSafe(e, o.r, HeldBy(o), fs.k)
    ensures var o := RunOf(fs, {}, s, r0);
            var (fs', d) := CompileCond(fs, e);
            var o' := RunOf(fs', SetOf(d.f), s, r0);
            match Eval(e, o.r)
            case None => o'.Fault?
            case Some(v) =>
              && (if IsFalse(v) then o'.Exit? && o'.at in d.f else Arrived(o', fs'.here))
              && Agree(o'.r, o.r, fs.freereg)
  {
    hide ListOK, TestsOK, ConstantsOK, Exec, CompileCond, WayOf, IfTrue, Eval, RunSafe, WF, EndsHeld;
    CondGoes(fs, e, s, r0);
    var o, sh := RunOf(fs, {}, s, r0), ShapeOf(e);
    RunExact(e, o.r, HeldBy(o), fs.k);
    LogicTurns(true, CondShape(sh), CondTrack(sh, TrackOf(fs, e, o)).w, CondMeaning(sh, Eval(e, o.r)), SJmp);
  }

  lemma NilIsFalse(fs: FS, d: Desc, s: int, r0: Regs, t: Track, base: int, sh: Shape)
    requires WFD(fs, d, {}) && RunToOK(fs, d, {}, s, r0) && Unplaced(fs, d) && ShapeIs(d.k, sh)
    requires Follows(fs, d, {}, RunTo(fs, d, {}, s, r0), t, base)
    ensures var d1 := if d.k.VNil? then d.(k := VFalse) else d;
            && WFD(fs, d1, {}) && RunToOK(fs, d1, {}, s, r0) && Unplaced(fs, d1) && ShapeIs(d1.k, CondShape(sh))
            && Follows(fs, d1, {}, RunTo(fs, d1, {}, s, r0), CondTrack(sh, t), base)
  {
    hide ListOK, TestsOK, ConstantsOK, Exec;
  }
}
