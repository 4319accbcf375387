/** Runs through `and`, `or`, `not` and comparisons. */
module CodeGenLogic {
  import opened Options
  import opened LuaValue
  import opened Bytecode
  import opened CodeGen
  import opened CodeGenStatic
  import opened CodeGenRun
  import opened CodeGenWays
  import opened Delivery

  predicate ShapeIs(k: Kind, s: Shape) {
    match s
    case SNil => k.VNil?
    case STrue => k.VTrue?
    case SFalse => k.VFalse?
    case SNum(n) => k == VKNum(n)
    case SLocal(x) => k == VLocal(x) || k == VNonReloc(x)
    case SJmp => k.VJmp?
    case SReloc => k.VReloc?
  }

  /** The outcome after a test of value v, where `taken` is the truth of v
      on which it jumps and l the list of its jump. */
  predicate Branched(o': Outcome, r: Regs, l: seq<int>, v: Value, taken: bool, carries: bool, n: int) {
    if !IsFalse(v) == taken
    then o'.Exit? && o'.at in l && o'.cv == (if carries then Some(v) else None) && Agree(o'.r, r, n)
    else o'.Fall? && Agree(o'.r, r, n)
  }

  lemma PlaceRun(fs: FS, e: Desc, P: set<int>, s: int, r0: Regs)
    requires WFD(fs, e, P) && RunToOK(fs, e, P, s, r0) && !e.k.VJmp? && !e.k.VLocal? && Unplaced(fs, e)
    ensures var o := RunTo(fs, e, P, s, r0);
            var (fs', e') := DischargeToAnyReg(fs, e);
            var fs1 := FreeExp(fs', e');
            var o' := RunOf(fs1, Pending(e, P), s, r0);
            && e'.k.VNonReloc? && WF(fs1, Pending(e, P)) && 0 <= s <= |fs1.code| && !o'.Stuck?
            && fs1.code == fs'.code && (fs1.here == [] || fs1.here == fs.here)
            && (if Arrived(o, fs.here)
                then Arrived(o', fs1.here) && Some(Get(o'.r, e'.k.reg)) == ValueOf(fs, e.k, o.r)
                    && Agree(o'.r, o.r, fs.freereg)
                else o' == o)
  {
    hide TestsOK, ConstantsOK, Exec, ListOK, DischargeToReg;
    var Q := Pending(e, P);
    assert KindOK(fs, e, Q);
    DischargeToAnyRegOK(fs, e, Q);
    if !e.k.VNonReloc? {
      DischargeToRegRun(Reserve(fs, 1), e, fs.freereg, P, s, r0);
    }
  }

  lemma JumpOnCondRun(fs: FS, e: Desc, cond: bool, P: set<int>, s: int, r0: Regs)
    requires WFD(fs, e, P) && RunToOK(fs, e, P, s, r0) && !e.k.VJmp? && !e.k.VLocal? && Unplaced(fs, e)
    ensures var o := RunTo(fs, e, P, s, r0);
            var (fs', l) := JumpOnCond(fs, e, cond);
            var o' := RunOf(fs', Pending(e, P) + SetOf(l), s, r0);
            && 0 <= s <= |fs'.code| && fs'.here == [] && |fs'.code| > 0 && fs'.code[|fs'.code| - 1].Jmp?
            && (if Arrived(o, fs.here)
                then Branched(o', o.r, l, ValueOf(fs, e.k, o.r).value, cond, !e.k.VReloc?, fs.freereg)
                else o' == o)
  {
    hide TestsOK, ConstantsOK, Exec, ListOK, CondJump, DischargeToAnyReg;
    var Q := Pending(e, P);
    if e.k.VReloc? {
      TestNotRun(fs, e, cond, P, s, r0);
    } else {
      PlaceRun(fs, e, P, s, r0);
      var (fs1, e1) := DischargeToAnyReg(fs, e);
      var fs2 := FreeExp(fs1, e1);
      var i := TestSet(NO_REG, e1.k.reg, cond);
      CondJumpOK(fs2, i, Q);
      CondJumpRun(fs2, i, Q, s, r0);
    }
  }

  /** A pending NOT is removed and its operand tested instead. */
  lemma TestNotRun(fs: FS, e: Desc, cond: bool, P: set<int>, s: int, r0: Regs)
    requires WFD(fs, e, P) && RunToOK(fs, e, P, s, r0) && e.k.VReloc?
    ensures var o := RunTo(fs, e, P, s, r0);
            var (fs', l) := CondJump(fs.(code := fs.code[..|fs.code| - 1]), Test(fs.code[e.k.pc].b, !cond));
            var o' := RunOf(fs', Pending(e, P) + SetOf(l), s, r0);
            && 0 <= s <= |fs'.code| && fs'.here == [] && |fs'.code| > 0 && fs'.code[|fs'.code| - 1].Jmp?
            && (if Arrived(o, fs.here)
                then Branched(o', o.r, l, ValueOf(fs, e.k, o.r).value, cond, false, fs.freereg)
                else o' == o)
  {
    hide ConstantsOK, Exec, ListOK, CondJump;
    var Q := Pending(e, P);
    var fs1 := fs.(code := fs.code[..|fs.code| - 1]);
    EmptyListOK(fs1.code);
    assert WF(fs1, Q) by { assert TestsOK(fs1.code); }
    var i := Test(fs.code[e.k.pc].b, !cond);
    ExecAgree(fs.code, fs.k, Q + SetOf([]), fs1.code, fs.k, Q + SetOf([]), s, |fs1.code|, r0);
    CondJumpOK(fs1, i, Q);
    CondJumpRun(fs1, i, Q, s, r0);
  }

  /** The run after the jump out of the value. */
  ghost predicate JumpedOut(o': Outcome, here': seq<int>, l: seq<int>, fs: FS, e: Desc, o: Outcome, cond: bool)
    requires e.k.VReloc? ==> 0 <= e.k.pc < |fs.code| && fs.code[e.k.pc].Not?
    requires e.k.VJmp? ==> 1 <= e.k.pc < |fs.code|
    requires e.k.VK? ==> 0 <= e.k.i < |fs.k|
  {
    if !Arrived(o, fs.here) then o' == o
    else if (cond && (e.k.VNil? || e.k.VFalse?)) || (!cond && (e.k.VK? || e.k.VKNum? || e.k.VTrue?))
    then Arrived(o', here') && HeldBy(o') == HeldBy(o) && o'.r == o.r
    else if (cond && e.k.VTrue?) || (!cond && e.k.VFalse?)
    then o'.Exit? && o'.at in l && o'.cv == HeldBy(o) && o'.r == o.r
    else if ValueOf(fs, e.k, o.r).None? then o'.Fault?
    else Branched(o', o.r, l, ValueOf(fs, e.k, o.r).value, cond, !e.k.VReloc? && !e.k.VJmp?, fs.freereg)
  }

  lemma JmpOutRun(fs: FS, e: Desc, cond: bool, P: set<int>, s: int, r0: Regs)
    requires WFD(fs, e, P) && RunToOK(fs, e, P, s, r0) && e.k.VJmp?
    requires var o := RunTo(fs, e, P, s, r0); Arrived(o, fs.here) ==> Decided(fs, e.k, o.r)
    ensures var o := RunTo(fs, e, P, s, r0);
            var fs' := if cond then fs else fs.(code := InvertJump(fs.code, e.k.pc));
            var o' := RunOf(fs', Pending(e, P) + SetOf([e.k.pc]), s, r0);
            JumpedOut(o', fs'.here, [e.k.pc], fs, e, o, cond) && 0 <= s <= |fs'.code| && !o'.Stuck?
            && NilOK(fs', Pending(e, P) + SetOf([e.k.pc]), s, r0)
  {
    hide TestsOK, ConstantsOK, Exec, ListOK;
    var Q, pc, n := Pending(e, P), e.k.pc, |fs.code|;
    var c' := if cond then fs.code else InvertJump(fs.code, pc);
    assert Q + SetOf([]) == Q && Q + SetOf([pc]) + SetOf([]) == Q + {pc};
    ExecAgree(fs.code, fs.k, Q, c', fs.k, Q + {pc}, s, n - 2, r0);
    ExecSplit(c', fs.k, Q + {pc}, s, n - 2, n, r0);
    var o := RunTo(fs, e, P, s, r0);
    if o.Fall? { BranchExec(c', fs.k, Q + {pc}, n - 2, o.r); }
  }

  lemma JumpOutRun(fs: FS, e: Desc, cond: bool, P: set<int>, s: int, r0: Regs)
    requires WFD(fs, e, P) && RunToOK(fs, e, P, s, r0) && !e.k.VLocal? && Unplaced(fs, e)
    requires var o := RunTo(fs, e, P, s, r0); Arrived(o, fs.here) ==> Decided(fs, e.k, o.r)
    ensures var o := RunTo(fs, e, P, s, r0);
            var (fs', l) := if cond then JumpIfTrue(fs, e) else JumpIfFalse(fs, e);
            var o' := RunOf(fs', Pending(e, P) + SetOf(l), s, r0);
            JumpedOut(o', fs'.here, l, fs, e, o, cond) && 0 <= s <= |fs'.code| && !o'.Stuck?
            && NilOK(fs', Pending(e, P) + SetOf(l), s, r0)
  {
    hide TestsOK, ConstantsOK, Exec, ListOK, JumpOnCond, Jump, InvertJump, EffectOf;
    var Q := Pending(e, P);
    assert Q + SetOf([]) == Q;
    if e.k.VJmp? {
      JmpOutRun(fs, e, cond, P, s, r0);
    } else if (cond && e.k.VTrue?) || (!cond && e.k.VFalse?) {
      JumpOK(fs, Q);
      JumpRun(fs, Q, s, r0);
    } else if (cond && (e.k.VNil? || e.k.VFalse?)) || (!cond && (e.k.VK? || e.k.VKNum? || e.k.VTrue?)) {
    } else {
      JumpOnCondRun(fs, e, cond, P, s, r0);
    }
  }

  lemma JoinListsRun(fs: FS, keep: seq<int>, l: seq<int>, close: seq<int>, P: set<int>, s: int, r0: Regs)
    requires WF(fs, P + SetOf(keep) + SetOf(close) + SetOf(l))
    requires ListOK(fs.code, keep) && ListOK(fs.code, l) && ListOK(fs.code, close)
    requires SetOf(keep) !! SetOf(close) !! SetOf(l) !! P
    requires !RunOf(fs, P + SetOf(keep) + SetOf(close) + SetOf(l), s, r0).Stuck?
    ensures RunOf(JoinLists(fs, keep, l, close), P + SetOf(keep + l), s, r0)
            == RunOf(fs, P + SetOf(keep) + SetOf(close) + SetOf(l), s, r0)
  {
    JoinListsOK(fs, keep, l, close, P);
    var fs' := JoinLists(fs, keep, l, close);
    var A := P + SetOf(keep) + SetOf(close) + SetOf(l) + SetOf(fs.here);
    assert P + SetOf(keep + l) + SetOf(fs'.here) == A;
    forall i | 0 <= i < |fs.code|
      ensures fs'.code[i] == fs.code[i] || (i in A && fs.code[i].Jmp? && fs'.code[i].Jmp?)
    {
      var c1 := Link(fs.code, keep, l);
      LinkOK(fs.code, keep, l);
      assert c1[i] == fs.code[i] || i in keep;
      assert fs'.code[i] == c1[i] || (i in fs.here && fs'.code[i].Jmp?);
      assert i in keep ==> i in SetOf(keep);
      assert i in fs.here ==> i in SetOf(fs.here) && fs.code[i].Jmp?;
    }
    ExecAgree(fs.code, fs.k, A, fs'.code, fs.k, A, s, |fs.code|, r0);
  }

  /** The run before the right operand of `and` (`or`): it leaves by l, or
      arrives with the held value. */
  ghost predicate Continues(o': Outcome, here': seq<int>, l: seq<int>, isAnd: bool, t: Track, P: set<int>, base: int) {
    match t
    case Left(o) => o' == o && LeftBy(o', P)
    case On(Through(_, held), r) => Arrived(o', here') && HeldBy(o') == held && Agree(o'.r, r, base)
    case On(FalseExit(cv), r) => isAnd && o'.Exit? && o'.at in l && o'.cv == cv && Agree(o'.r, r, base)
    case On(TrueExit(cv), r) => !isAnd && o'.Exit? && o'.at in l && o'.cv == cv && Agree(o'.r, r, base)
    case On(Failed, _) => o'.Fault?
  }

  function AfterLeft(isAnd: bool, sh: Shape, t: Track): Track {
    match t
    case Left(_) => t
    case On(w, r) => On(if isAnd then IfTrue(sh, w) else IfFalse(sh, w), r)
  }

  lemma LeftOperandRun(fs: FS, e: Desc, isAnd: bool, P: set<int>, s: int, r0: Regs, t: Track, base: int, sh: Shape)
    requires WFD(fs, e, P) && RunToOK(fs, e, P, s, r0) && Unplaced(fs, e) && !e.k.VLocal?
    requires Follows(fs, e, P, RunTo(fs, e, P, s, r0), t, base) && ShapeIs(e.k, sh) && base <= fs.freereg
    ensures var (fs1, l) := if isAnd then JumpIfFalse(fs, e) else JumpIfTrue(fs, e);
            var keep, close := if isAnd then e.f else e.t, if isAnd then e.t else e.f;
            var fs' := JoinLists(fs1, keep, l, close);
            var o' := RunOf(fs', P + SetOf(keep + l), s, r0);
            && Continues(o', fs'.here, keep + l, isAnd, AfterLeft(isAnd, sh, t), P, base)
            && RunOK(fs', P + SetOf(keep + l), s, r0)
  {
    hide TestsOK, ConstantsOK, Exec, ListOK, JumpIfFalse, JumpIfTrue, JoinLists, JumpedOut, Continues, ShapeIs;
    JumpOutOK(fs, e, !isAnd, P);
    JumpOutRun(fs, e, !isAnd, P, s, r0);
    var (fs1, l) := if isAnd then JumpIfFalse(fs, e) else JumpIfTrue(fs, e);
    FrameKeeps(fs, fs1, e, P);
    var keep, close := if isAnd then e.f else e.t, if isAnd then e.t else e.f;
    assert Pending(e, P) + SetOf(l) == P + SetOf(keep) + SetOf(close) + SetOf(l);
    JoinListsOK(fs1, keep, l, close, P);
    JoinListsRun(fs1, keep, l, close, P, s, r0);
    JoinListsNil(fs1, keep, l, close, P, s, r0);
    var fs' := JoinLists(fs1, keep, l, close);
    forall j | j in close || j in fs1.here ensures j in fs'.here {
      assert j in SetOf(fs'.here);
    }
    assert SetOf(keep + l) == SetOf(keep) + SetOf(l);
    JumpedContinues(RunTo(fs, e, P, s, r0), RunOf(fs', P + SetOf(keep + l), s, r0),
                    fs1.here, fs'.here, l, fs, e, isAnd, P, t, base, sh);
  }

  lemma JumpedContinues(o: Outcome, o1: Outcome, here1: seq<int>, here': seq<int>, l: seq<int>,
                        fs: FS, e: Desc, isAnd: bool, P: set<int>, t: Track, base: int, sh: Shape)
    requires WFD(fs, e, P) && Follows(fs, e, P, o, t, base) && ShapeIs(e.k, sh) && base <= fs.freereg
    requires JumpedOut(o1, here1, l, fs, e, o, !isAnd)
    requires forall j :: j in here1 || j in (if isAnd then e.t else e.f) ==> j in here'
    ensures Continues(o1, here', (if isAnd then e.f else e.t) + l, isAnd, AfterLeft(isAnd, sh, t), P, base)
  {
    hide TestsOK, ConstantsOK, ListOK;
    DisjointLists(fs, e, P);
    var keep := if isAnd then e.f else e.t;
    assert forall j :: j in keep + l <==> j in keep || j in l;
  }

  lemma JoinListsNil(fs: FS, keep: seq<int>, l: seq<int>, close: seq<int>, P: set<int>, s: int, r0: Regs)
    requires NilOK(fs, P + SetOf(keep) + SetOf(close) + SetOf(l), s, r0)
    ensures NilOK(JoinLists(fs, keep, l, close), P + SetOf(keep + l), s, r0)
  {
  }

  function AfterNot(sh: Shape, t: Track): Track {
    match t
    case Left(_) => t
    case On(w, r) => On(Negated(sh, w), r)
  }

  /** The value of the descriptor is negated; the ways out stay. */
  ghost predicate ValueNegated(o': Outcome, fs': FS, k': Kind, fs: FS, e: Desc, o: Outcome, sh: Shape)
    requires e.k.VReloc? ==> 0 <= e.k.pc < |fs.code| && fs.code[e.k.pc].Not?
    requires e.k.VJmp? ==> 1 <= e.k.pc < |fs.code|
    requires e.k.VK? ==> 0 <= e.k.i < |fs.k|
    requires k'.VReloc? ==> 0 <= k'.pc < |fs'.code| && fs'.code[k'.pc].Not?
    requires k'.VJmp? ==> 1 <= k'.pc < |fs'.code|
    requires k'.VK? ==> 0 <= k'.i < |fs'.k|
  {
    if !Arrived(o, fs.here) then o' == o
    else
      && Arrived(o', fs'.here) && HeldBy(o') == (if IsConstant(sh) then HeldBy(o) else None)
      && Agree(o'.r, o.r, fs.freereg) && Decided(fs', k', o'.r)
      && ValueOf(fs', k', o'.r) == (var v := ValueOf(fs, e.k, o.r); if v.None? then None
          else Some(Boolean(IsFalse(v.value))))
  }

  lemma NegateValueRun(fs: FS, e: Desc, P: set<int>, s: int, r0: Regs, sh: Shape)
    requires WFD(fs, e, P) && RunToOK(fs, e, P, s, r0) && Unplaced(fs, e) && !e.k.VLocal? && ShapeIs(e.k, sh)
    requires var o := RunTo(fs, e, P, s, r0); Arrived(o, fs.here) ==> Decided(fs, e.k, o.r)
    ensures var (fs', k') := NegateValue(fs, e);
            && WFD(fs', e.(k := k'), P) && RunToOK(fs', e.(k := k'), P, s, r0)
            && ValueNegated(RunTo(fs', e.(k := k'), P, s, r0), fs', k', fs, e, RunTo(fs, e, P, s, r0), sh)
  {
    hide TestsOK, ConstantsOK, Exec, ListOK, DischargeToAnyReg, Emit, IsTest, SetNils, InvertJump;
    NegateValueOK(fs, e, P);
    if e.k.VJmp? {
      NegateJmpRun(fs, e, P, s, r0, sh);
    } else if e.k.VReloc? || e.k.VNonReloc? {
      NegateToReloc(fs, e, P, s, r0, sh);
    }
  }

  lemma NegateJmpRun(fs: FS, e: Desc, P: set<int>, s: int, r0: Regs, sh: Shape)
    requires WFD(fs, e, P) && RunToOK(fs, e, P, s, r0) && e.k.VJmp? && ShapeIs(e.k, sh)
    requires var o := RunTo(fs, e, P, s, r0); Arrived(o, fs.here) ==> Decided(fs, e.k, o.r)
    ensures var fs' := fs.(code := InvertJump(fs.code, e.k.pc));
            && WFD(fs', e, P) && RunToOK(fs', e, P, s, r0)
            && ValueNegated(RunTo(fs', e, P, s, r0), fs', e.k, fs, e, RunTo(fs, e, P, s, r0), sh)
  {
    hide TestsOK, ConstantsOK, Exec, ListOK, SetNils;
    NegateValueOK(fs, e, P);
    var Q := Pending(e, P);
    assert Q + SetOf([]) == Q;
    ExecAgree(fs.code, fs.k, Q, InvertJump(fs.code, e.k.pc), fs.k, Q, s, |fs.code| - 2, r0);
  }

  lemma NegateToReloc(fs: FS, e: Desc, P: set<int>, s: int, r0: Regs, sh: Shape)
    requires WFD(fs, e, P) && RunToOK(fs, e, P, s, r0) && Unplaced(fs, e) && ShapeIs(e.k, sh)
    requires e.k.VReloc? || e.k.VNonReloc?
    ensures var (fs1, e1) := DischargeToAnyReg(fs, e);
            var fs2 := FreeExp(fs1, e1);
            var fs3 := Emit(fs2, Not(0, if e1.k.VNonReloc? then e1.k.reg else 0));
            var d := e.(k := VReloc(|fs2.code|));
            && fs3.code[|fs2.code|].Not? && 0 <= s <= |fs2.code|
            && !RunTo(fs3, d, P, s, r0).Stuck?
            && ValueNegated(RunTo(fs3, d, P, s, r0), fs3, d.k, fs, e, RunTo(fs, e, P, s, r0), sh)
  {
    hide TestsOK, ConstantsOK, Exec, ListOK, DischargeToAnyReg, Patch;
    PlaceRun(fs, e, P, s, r0);
    var (fs1, e1) := DischargeToAnyReg(fs, e);
    var fs2 := FreeExp(fs1, e1);
    var Q := Pending(e, P);
    EmitRun(fs2, Not(0, e1.k.reg), Q, s, r0);
    assert Q + SetOf([]) == Q;
  }

  lemma DropRun(fs: FS, e: Desc, L: seq<int>, P: set<int>, s: int, r0: Regs)
    requires WFD(fs, e, P) && RunToOK(fs, e, P, s, r0) && SetOf(L) <= Pending(e, P)
    ensures var fs' := fs.(code := DropValues(fs.code, L));
            && WFD(fs', e, P) && RunToOK(fs', e, P, s, r0)
            && RunTo(fs', e, P, s, r0) == Dropped(L, RunTo(fs, e, P, s, r0))
            && forall r :: ValueOf(fs', e.k, r) == ValueOf(fs, e.k, r) && Decided(fs', e.k, r) == Decided(fs, e.k, r)
  {
    hide TestsOK, ConstantsOK, Exec, ListOK;
    DropOK(fs, e, L, P);
    var A := Pending(e, P) + SetOf(fs.here);
    forall j | j in L ensures 0 <= j < |fs.code| && fs.code[j].Jmp? && j in A {
      assert j in SetOf(L) && j in Pending(e, P);
    }
    DropExec(fs.code, fs.k, A, L, s, EndOf(fs, e.k), r0);
    if EndOf(fs, e.k) == |fs.code| && |fs.code| > fs.lasttarget && |fs.code| > 0 && fs.code[|fs.code| - 1].LoadNil?
       && RunTo(fs, e, P, s, r0).Fall? {
      DropExec(fs.code, fs.k, Pending(e, P), L, s, |fs.code| - 1, r0);
    }
  }

  lemma DropBothRun(fs: FS, e: Desc, P: set<int>, s: int, r0: Regs)
    requires WFD(fs, e, P) && RunToOK(fs, e, P, s, r0)
    ensures var fs' := fs.(code := DropValues(DropValues(fs.code, e.t), e.f));
            && WFD(fs', e, P) && RunToOK(fs', e, P, s, r0)
            && RunTo(fs', e, P, s, r0) == Dropped(e.f, Dropped(e.t, RunTo(fs, e, P, s, r0)))
            && forall r :: ValueOf(fs', e.k, r) == ValueOf(fs, e.k, r) && Decided(fs', e.k, r) == Decided(fs, e.k, r)
  {
    hide WF, KindOK, RunTo, RunToOK, DropValues, ValueOf, Decided;
    DropRun(fs, e, e.t, P, s, r0);
    DropRun(fs.(code := DropValues(fs.code, e.t)), e, e.f, P, s, r0);
  }

  lemma CodeNotRun(fs: FS, e: Desc, P: set<int>, s: int, r0: Regs, t: Track, base: int, sh: Shape)
    requires WFD(fs, e, P) && RunToOK(fs, e, P, s, r0) && Unplaced(fs, e) && !e.k.VLocal?
    requires Follows(fs, e, P, RunTo(fs, e, P, s, r0), t, base) && ShapeIs(e.k, sh) && base <= fs.freereg
    ensures var (fs', e') := CodeNot(fs, e);
            && WFD(fs', e', P) && RunToOK(fs', e', P, s, r0)
            && Follows(fs', e', P, RunTo(fs', e', P, s, r0), AfterNot(sh, t), base)
  {
    hide WF, Exec, ListOK, NegateValue, DropValues, ValueOf, Decided, Follows, ValueNegated, AfterNot, NilOK;
    CodeNotOK(fs, e, P);
    FollowsDecided(fs, e, P, RunTo(fs, e, P, s, r0), t, base);
    NegateValueRun(fs, e, P, s, r0, sh);
    var (fs1, k) := NegateValue(fs, e);
    var e1 := e.(k := k);
    DropBothRun(fs1, e1, P, s, r0);
    var (fs', e') := CodeNot(fs, e);
    assert Pending(e', P) == Pending(e1, P);
    NotFollows(fs, e, fs1, fs', k, P, RunTo(fs, e, P, s, r0), RunTo(fs1, e1, P, s, r0), t, base, sh);
  }

  lemma FollowsDecided(fs: FS, e: Desc, P: set<int>, o: Outcome, t: Track, base: int)
    requires WFD(fs, e, P) && Follows(fs, e, P, o, t, base)
    ensures Arrived(o, fs.here) ==> Decided(fs, e.k, o.r)
  {
    hide TestsOK, ConstantsOK, ListOK, Decided;
    DisjointLists(fs, e, P);
  }

  /** Negating the value and exchanging the lists negates every way out. */
  lemma NotFollows(fs: FS, e: Desc, fs1: FS, fs': FS, k: Kind, P: set<int>, o: Outcome, o1: Outcome, t: Track,
                   base: int, sh: Shape)
    requires WFD(fs, e, P) && WFD(fs1, e.(k := k), P) && WFD(fs', Desc(k, e.f, e.t), P) && fs'.here == fs1.here
    requires Follows(fs, e, P, o, t, base) && ValueNegated(o1, fs1, k, fs, e, o, sh) && base <= fs.freereg
    requires forall r :: ValueOf(fs', k, r) == ValueOf(fs1, k, r) && Decided(fs', k, r) == Decided(fs1, k, r)
    ensures Follows(fs', Desc(k, e.f, e.t), P, Dropped(e.f, Dropped(e.t, o1)), AfterNot(sh, t), base)
  {
    hide TestsOK, ConstantsOK, ListOK, KindOK, IsFalse, Decided, ValueOf;
    DisjointLists(fs, e, P);
    DisjointLists(fs1, e.(k := k), P);
  }
}
