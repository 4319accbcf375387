/** Runs through the code of an expression and its descriptor. */
module CodeGenWays {
  import opened Options
  import opened LuaValue
  import opened Bytecode
  import opened CodeGen
  import opened CodeGenStatic
  import opened CodeGenRun
  import opened Delivery

  /** Where the code that is final for the descriptor ends: the instruction
      of VReloc and the comparison of VJmp may still change. */
  function EndOf(fs: FS, k: Kind): int {
    match k
    case VReloc(pc) => pc
    case VJmp(pc) => pc - 1
    case _ => |fs.code|
  }

  function RunTo(fs: FS, e: Desc, P: set<int>, s: int, r0: Regs): Outcome
    requires EndOf(fs, e.k) <= |fs.code|
  {
    Exec(fs.code, fs.k, Pending(e, P) + SetOf(fs.here), s, EndOf(fs, e.k), r0)
  }

  /** The value of the descriptor; None is the error of its comparison. */
  function ValueOf(fs: FS, k: Kind, r: Regs): Option<Value>
    requires k.VReloc? ==> 0 <= k.pc < |fs.code| && fs.code[k.pc].Not?
    requires k.VJmp? ==> 1 <= k.pc < |fs.code|
    requires k.VK? ==> 0 <= k.i < |fs.k|
  {
    match k
    case VK(i) => Some(fs.k[i])
    case VLocal(x) => Some(Get(r, x))
    case VNonReloc(x) => Some(Get(r, x))
    case VReloc(pc) => Some(Boolean(IsFalse(Get(r, fs.code[pc].b))))
    case VJmp(pc) =>
      (match EffectOf(fs.code[pc - 1], fs.k, r)
       case Tested(b) => Some(Boolean(b))
       case _ => None)
    case _ => Some(ConstValue(k))
  }

  /** The comparison of a VJmp has operands. */
  predicate Decided(fs: FS, k: Kind, r: Regs)
    requires k.VJmp? ==> 1 <= k.pc < |fs.code|
  {
    k.VJmp? ==> EffectOf(fs.code[k.pc - 1], fs.k, r).Tested? || EffectOf(fs.code[k.pc - 1], fs.k, r).Raises?
  }

  /** How the run stands: it left the enclosing code, or it started the
      expression with registers r and goes the given way. */
  datatype Track = Left(o: Outcome) | On(w: Way, r: Regs)

  predicate LeftBy(o: Outcome, P: set<int>) {
    o.Fault? || (o.Exit? && o.at in P)
  }

  /** The outcome of the run to the end of the descriptor is the way. */
  predicate Follows(fs: FS, e: Desc, P: set<int>, o: Outcome, t: Track, base: int)
    requires WFD(fs, e, P)
  {
    match t
    case Left(o0) => o == o0 && LeftBy(o, P)
    case On(TrueExit(cv), r) => o.Exit? && o.at in e.t && o.cv == cv && Agree(o.r, r, base)
    case On(FalseExit(cv), r) => o.Exit? && o.at in e.f && o.cv == cv && Agree(o.r, r, base)
    case On(Through(v, held), r) =>
      && Arrived(o, fs.here) && HeldBy(o) == held && Agree(o.r, r, base)
      && Decided(fs, e.k, o.r) && ValueOf(fs, e.k, o.r) == Some(v)
    case On(Failed, r) =>
      o.Fault? || (Arrived(o, fs.here) && Agree(o.r, r, base) && Decided(fs, e.k, o.r) && ValueOf(fs, e.k, o.r) == None)
  }

  ghost predicate RunToOK(fs: FS, e: Desc, P: set<int>, s: int, r0: Regs)
    requires WFD(fs, e, P)
  {
    && 0 <= s <= EndOf(fs, e.k)
    && !RunTo(fs, e, P, s, r0).Stuck?
    && (EndOf(fs, e.k) == |fs.code| ==> NilOK(fs, Pending(e, P), s, r0))
  }

  /** The outcome of the run after the value went to register reg. */
  ghost predicate Placed(o': Outcome, here': seq<int>, fs: FS, e: Desc, o: Outcome, reg: int)
    requires e.k.VReloc? ==> 0 <= e.k.pc < |fs.code| && fs.code[e.k.pc].Not?
    requires e.k.VK? ==> 0 <= e.k.i < |fs.k|
    requires !e.k.VJmp?
  {
    if Arrived(o, fs.here)
    then Arrived(o', here') && Stores(o'.r, o.r, reg, ValueOf(fs, e.k, o.r).value)
    else o' == o
  }

  lemma LoadRun(fs: FS, i: Instr, reg: int, v: Value, P: set<int>, s: int, r0: Regs)
    requires WF(fs, P) && !IsTest(i) && 0 <= s <= |fs.code| && !RunOf(fs, P, s, r0).Stuck?
    requires var o := RunOf(fs, P, s, r0);
             Arrived(o, fs.here) ==> EffectOf(i, fs.k, o.r) == Next(Set(o.r, reg, v), false)
    ensures var o := RunOf(fs, P, s, r0);
            var o' := RunOf(Emit(fs, i), P, s, r0);
            if Arrived(o, fs.here) then o'.Fall? && Stores(o'.r, o.r, reg, v) else o' == o
    ensures RunOK(Emit(fs, i), P, s, r0)
  {
    EmitRun(fs, i, P, s, r0);
  }

  lemma RelocRun(fs: FS, e: Desc, reg: int, P: set<int>, s: int, r0: Regs)
    requires WFD(fs, e, P) && RunToOK(fs, e, P, s, r0) && e.k.VReloc?
    ensures var o := RunTo(fs, e, P, s, r0);
            var fs' := fs.(code := SetArgA(fs.code, e.k.pc, reg));
            Placed(RunOf(fs', Pending(e, P), s, r0), fs'.here, fs, e, o, reg)
            && RunOK(fs', Pending(e, P), s, r0)
  {
    hide ListOK, TestsOK, ConstantsOK, Follow, Pending;
    var Q, n := Pending(e, P), |fs.code|;
    var c' := SetArgA(fs.code, e.k.pc, reg);
    assert Q + SetOf([]) == Q;
    ExecAgree(fs.code, fs.k, Q, c', fs.k, Q, s, n - 1, r0);
    ExecSplit(c', fs.k, Q, s, n - 1, n, r0);
    var o := RunTo(fs, e, P, s, r0);
    if o.Fall? {
      var r1 := Set(o.r, reg, Boolean(IsFalse(Get(o.r, c'[n - 1].b))));
      assert TurnAt(c', fs.k, Q, n - 1, n, o.r) == Go(n, r1);
      assert Exec(c', fs.k, Q, n, n, r1) == Fall(r1);
    }
  }

  lemma AddKRun(fs: FS, v: Value, P: set<int>, s: int, r0: Regs)
    requires WF(fs, P) && RunOK(fs, P, s, r0)
    ensures RunOf(AddK(fs, v).0, P, s, r0) == RunOf(fs, P, s, r0) && RunOK(AddK(fs, v).0, P, s, r0)
  {
    hide ListOK, TestsOK, ConstantsOK, CompareRK, AddK, Exec;
    AddKOK(fs, v, P);
    var Q, fs' := P + SetOf(fs.here), AddK(fs, v).0;
    ExecAgree(fs.code, fs.k, Q, fs.code, fs'.k, Q, s, |fs.code|, r0);
    var o := RunOf(fs, P, s, r0);
    if |fs.code| > fs.lasttarget && |fs.code| > 0 && fs.code[|fs.code| - 1].LoadNil? && o.Fall? {
      ExecAgree(fs.code, fs.k, P, fs.code, fs'.k, P, s, |fs.code| - 1, r0);
    }
  }

  lemma DischargeToRegRun(fs: FS, e: Desc, reg: int, P: set<int>, s: int, r0: Regs)
    requires WFD(fs, e, P) && RunToOK(fs, e, P, s, r0) && !e.k.VJmp? && reg >= 0
    ensures var o := RunTo(fs, e, P, s, r0);
            var fs' := DischargeToReg(fs, e, reg).0;
            && Placed(RunOf(fs', Pending(e, P), s, r0), fs'.here, fs, e, o, reg)
            && RunOK(fs', Pending(e, P), s, r0)
            && (if (e.k.VNonReloc? || e.k.VLocal?) && e.k.reg == reg then fs' == fs else fs'.here == [])
  {
    hide ListOK, TestsOK, ConstantsOK, Exec, Stores, NilOK, SetArgA, AddK, SetNils;
    var Q := Pending(e, P);
    match e.k
    case VNil => EmitNilRun(fs, reg, Q, s, r0); EmitNilOK(fs, reg, Q);
    case VFalse => LoadRun(fs, LoadBool(reg, false, false), reg, Boolean(false), Q, s, r0);
    case VTrue => LoadRun(fs, LoadBool(reg, true, false), reg, Boolean(true), Q, s, r0);
    case VK(i) => LoadRun(fs, LoadK(reg, i), reg, fs.k[i], Q, s, r0);
    case VKNum(n) =>
      var v := Number(Fin(n));
      AddKOK(fs, v, Q);
      AddKRun(fs, v, Q, s, r0);
      var (fs1, i) := AddK(fs, v);
      LoadRun(fs1, LoadK(reg, i), reg, v, Q, s, r0);
    case VReloc(_) => RelocRun(fs, e, reg, P, s, r0);
    case VNonReloc(x) => MoveRun(fs, e, x, reg, P, s, r0);
    case VLocal(x) => MoveRun(fs, e, x, reg, P, s, r0);
  }

  lemma MoveRun(fs: FS, e: Desc, x: int, reg: int, P: set<int>, s: int, r0: Regs)
    requires WFD(fs, e, P) && RunToOK(fs, e, P, s, r0) && (e.k == VNonReloc(x) || e.k == VLocal(x))
    ensures var o := RunTo(fs, e, P, s, r0);
            var fs' := if reg != x then Emit(fs, Move(reg, x)) else fs;
            && Placed(RunOf(fs', Pending(e, P), s, r0), fs'.here, fs, e, o, reg)
            && RunOK(fs', Pending(e, P), s, r0)
  {
    if reg != x {
      var o := RunTo(fs, e, P, s, r0);
      if Arrived(o, fs.here) {
        LoadRun(fs, Move(reg, x), reg, Get(o.r, x), Pending(e, P), s, r0);
      } else {
        LoadRun(fs, Move(reg, x), reg, Nil, Pending(e, P), s, r0);
      }
    }
  }

  /** The code ends with the two LOADBOOLs of exp2reg. */
  predicate EndsWithBools(c: seq<Instr>, reg: int) {
    && |c| >= 2
    && c[|c| - 2] == LoadBool(reg, false, true)
    && c[|c| - 1] == LoadBool(reg, true, false)
  }

  lemma BoolsExec(c: seq<Instr>, k: seq<Value>, P: set<int>, reg: int, r: Regs)
    requires EndsWithBools(c, reg)
    ensures Exec(c, k, P, |c| - 2, |c|, r) == Fall(Set(r, reg, Boolean(false)))
    ensures Exec(c, k, P, |c| - 1, |c|, r) == Fall(Set(r, reg, Boolean(true)))
  {
    var n := |c|;
    assert TurnAt(c, k, P, n - 2, n, r) == Go(n, Set(r, reg, Boolean(false)));
    assert TurnAt(c, k, P, n - 1, n, r) == Go(n, Set(r, reg, Boolean(true)));
  }

  /** The value with which a jump of a list ends up. */
  function JumpValue(cv: Option<Value>, b: bool): Value {
    if cv.Some? then cv.value else Boolean(b)
  }

  /** Where a run goes when both lists are closed. */
  function Patched(t: seq<int>, f: seq<int>, reg: int, o: Outcome): Outcome {
    if o.Exit? && o.at in f then Fall(Set(o.r, reg, JumpValue(o.cv, false)))
    else if o.Exit? && o.at in t then Fall(Set(o.r, reg, JumpValue(o.cv, true)))
    else o
  }

  /** The jumps of L that carry no value are before the LOADBOOLs. */
  predicate Patchable(c: seq<Instr>, L: seq<int>, reg: int) {
    forall j :: j in L ==>
      && 0 <= j < |c| && c[j].Jmp?
      && (!Carries(c, j) ==> EndsWithBools(c, reg))
      && (EndsWithBools(c, reg) ==> j < |c| - 2)
  }

  lemma PatchOneRun(c: seq<Instr>, k: seq<Value>, A: set<int>, L: seq<int>, reg: int, b: bool, s: int, r0: Regs)
    requires Patchable(c, L, reg) && reg >= 0 && (forall j :: j in L ==> j in A)
    requires !Exec(c, k, A, s, |c|, r0).Stuck?
    ensures var o := Exec(c, k, A, s, |c|, r0);
            Exec(Patch(c, L, |c|, reg, if b then |c| - 1 else |c| - 2), k, A - SetOf(L), s, |c|, r0)
            == if o.Exit? && o.at in L then Fall(Set(o.r, reg, JumpValue(o.cv, b))) else o
  {
    var n, pd := |c|, if b then |c| - 1 else |c| - 2;
    var o := Exec(c, k, A, s, n, r0);
    var c' := Patch(c, L, n, reg, pd);
    PatchExec(c, k, A, L, n, reg, pd, s, n, n, r0);
    if o.Exit? {
      ExitCarries(c, k, A, s, n, r0);
      if o.at in L && o.cv.None? {
        assert EndsWithBools(c', reg);
        BoolsExec(c', k, A - SetOf(L), reg, o.r);
      }
    }
  }

  lemma PatchListsRun(fs: FS, t: seq<int>, f: seq<int>, reg: int, pf: int, pt: int, P: set<int>, s: int, r0: Regs)
    requires WF(fs, P + SetOf(t) + SetOf(f)) && SetOf(t) !! SetOf(f) && SetOf(t) !! P && SetOf(f) !! P
    requires reg >= 0 && !RunOf(fs, P + SetOf(t) + SetOf(f), s, r0).Stuck?
    requires Patchable(fs.code, t, reg) && Patchable(fs.code, f, reg)
    requires NeedValue(fs.code, f) ==> pf == |fs.code| - 2
    requires NeedValue(fs.code, t) ==> pt == |fs.code| - 1
    ensures RunOf(PatchLists(fs, t, f, reg, pf, pt), P, s, r0)
            == Patched(t, f, reg, RunOf(fs, P + SetOf(t) + SetOf(f), s, r0))
  {
    hide ListOK, TestsOK, ConstantsOK, Exec;
    var n := |fs.code|;
    var A := P + SetOf(t) + SetOf(f) + SetOf(fs.here);
    var c1 := Patch(fs.code, f, n, reg, pf);
    assert forall j :: j in f ==> j in SetOf(f);
    assert forall j :: j in t ==> j in SetOf(t);
    PatchSame(fs.code, f, reg, pf, n - 2);
    PatchOneRun(fs.code, fs.k, A, f, reg, false, s, r0);
    forall j | j in t
      ensures j !in f && c1[j].Jmp? && Carries(c1, j) == Carries(fs.code, j) && j in A - SetOf(f)
    {
      assert j in SetOf(t) && j !in SetOf(f);
    }
    assert EndsWithBools(fs.code, reg) ==> EndsWithBools(c1, reg);
    PatchKeepsBools(fs.code, f, reg, pf);
    PatchOneRun(c1, fs.k, A - SetOf(f), t, reg, true, s, r0);
    PatchSame(c1, t, reg, pt, n - 1);
    assert A - SetOf(f) - SetOf(t) == P + SetOf(fs.here) by {
      forall j | j in fs.here ensures j !in SetOf(f) && j !in SetOf(t) {
        assert j in t || j in f ==> j in P + SetOf(t) + SetOf(f);
      }
    }
  }

  /** If every jump of L carries a value, the default target is not used. */
  lemma PatchSame(c: seq<Instr>, L: seq<int>, reg: int, d1: int, d2: int)
    requires NeedValue(c, L) ==> d1 == d2
    ensures Patch(c, L, |c|, reg, d1) == Patch(c, L, |c|, reg, d2)
  {
  }

  lemma PatchKeepsBools(c: seq<Instr>, L: seq<int>, reg: int, d: int)
    requires Patchable(c, L, reg)
    ensures EndsWithBools(Patch(c, L, |c|, reg, d), reg) <==> EndsWithBools(c, reg)
  {
  }

  lemma SkipBoolsRun(fs: FS, isJmp: bool, P: set<int>, s: int, r0: Regs)
    requires WF(fs, P) && 0 <= s <= |fs.code| && !RunOf(fs, P, s, r0).Stuck? && (isJmp ==> fs.here == [])
    ensures var (fs1, fj) := SkipBools(fs, isJmp);
            var o := RunOf(fs, P, s, r0);
            var o1 := RunOf(fs1, P + SetOf(fj), s, r0);
            && fs1.here == [] && !o1.Stuck? && |fs.code| <= |fs1.code| && fs1.code[..|fs.code|] == fs.code
            && (if isJmp then o1 == o && fj == [] else
                if Arrived(o, fs.here) then o1.Exit? && o1.at in fj && o1.r == o.r && o1.cv == HeldBy(o) else o1 == o)
  {
    hide ListOK, TestsOK, ConstantsOK, Exec;
    if isJmp {
      assert P + SetOf([]) == P;
    } else {
      JumpOK(fs, P);
      JumpRun(fs, P, s, r0);
    }
  }

  lemma LoadBoolsCode(fs: FS, reg: int)
    requires fs.here == []
    ensures LoadBools(fs, reg).code == fs.code + [LoadBool(reg, false, true), LoadBool(reg, true, false)]
    ensures LoadBools(fs, reg).here == [] && LoadBools(fs, reg).k == fs.k
  {
    var fs1 := Emit(GetLabel(fs), LoadBool(reg, false, true));
    assert Patch(fs.code, [], |fs.code|, NO_REG, |fs.code|) == fs.code;
    assert Patch(fs1.code, [], |fs1.code|, NO_REG, |fs1.code|) == fs1.code;
  }

  /** The run over the code with the LOADBOOLs appended. */
  lemma LoadBoolsRun(fs: FS, fj: seq<int>, reg: int, P: set<int>, s: int, r0: Regs)
    requires fs.here == [] && 0 <= s <= |fs.code| && !RunOf(fs, P + SetOf(fj), s, r0).Stuck?
    ensures var o := RunOf(fs, P + SetOf(fj), s, r0);
            RunOf(PatchToHere(LoadBools(fs, reg), fj), P, s, r0)
            == if o.Fall? then Fall(Set(o.r, reg, Boolean(false))) else o
  {
    LoadBoolsCode(fs, reg);
    var A, n := P + SetOf(fj), |fs.code|;
    var c' := LoadBools(fs, reg).code;
    assert PatchToHere(LoadBools(fs, reg), fj).code == c';
    assert [] + fj == fj && A + SetOf([]) == A;
    ExecAgree(fs.code, fs.k, A, c', fs.k, A, s, n, r0);
    ExecSplit(c', fs.k, A, s, n, n + 2, r0);
    var o := RunOf(fs, A, s, r0);
    if o.Fall? { BoolsExec(c', fs.k, A, reg, o.r); }
  }

  /** The register gets the value of the way; the rest is as it was. */
  ghost predicate ClosedRun(o': Outcome, here': seq<int>, o: Outcome, here: seq<int>,
                            isJmp: bool, t: seq<int>, f: seq<int>, reg: int)
  {
    if o.Exit? && o.at in f then o'.Fall? && Stores(o'.r, o.r, reg, JumpValue(o.cv, false))
    else if o.Exit? && o.at in t then o'.Fall? && Stores(o'.r, o.r, reg, JumpValue(o.cv, true))
    else if Arrived(o, here) then
      && Arrived(o', here') && HeldBy(o') == HeldBy(o)
      && (if isJmp then Stores(o'.r, o.r, reg, Boolean(false)) else o'.r == o.r)
    else o' == o
  }

  lemma CloseListsRun(fs: FS, isJmp: bool, t: seq<int>, f: seq<int>, reg: int, P: set<int>, s: int, r0: Regs)
    requires WF(fs, P + SetOf(t) + SetOf(f)) && SetOf(t) !! SetOf(f) && SetOf(t) !! P && SetOf(f) !! P
    requires ListOK(fs.code, t) && ListOK(fs.code, f)
    requires reg >= 0 && (isJmp ==> fs.here == [] && t != [] && NeedValue(fs.code, t))
    requires 0 <= s <= |fs.code| && !RunOf(fs, P + SetOf(t) + SetOf(f), s, r0).Stuck?
    requires t == [] && f == [] ==> NilOK(fs, P, s, r0)
    ensures var o := RunOf(fs, P + SetOf(t) + SetOf(f), s, r0);
            var fs' := CloseLists(fs, isJmp, t, f, reg);
            ClosedRun(RunOf(fs', P, s, r0), fs'.here, o, fs.here, isJmp, t, f, reg) && RunOK(fs', P, s, r0)
  {
    hide ListOK, TestsOK, ConstantsOK, Exec, NeedValue, SkipBools, LoadBools, PatchLists;
    var Q, o := P + SetOf(t) + SetOf(f), RunOf(fs, P + SetOf(t) + SetOf(f), s, r0);
    if t == [] && f == [] {
      assert Q == P;
    } else if NeedValue(fs.code, t) || NeedValue(fs.code, f) {
      CloseWithBools(fs, isJmp, t, f, reg, P, s, r0);
    } else {
      CloseCarried(fs, t, f, reg, P, s, r0);
    }
  }

  lemma CloseCarried(fs: FS, t: seq<int>, f: seq<int>, reg: int, P: set<int>, s: int, r0: Regs)
    requires WF(fs, P + SetOf(t) + SetOf(f)) && SetOf(t) !! SetOf(f) && SetOf(t) !! P && SetOf(f) !! P
    requires reg >= 0 && !NeedValue(fs.code, t) && !NeedValue(fs.code, f) && (t != [] || f != [])
    requires 0 <= s <= |fs.code| && !RunOf(fs, P + SetOf(t) + SetOf(f), s, r0).Stuck?
    ensures var o := RunOf(fs, P + SetOf(t) + SetOf(f), s, r0);
            var fs' := PatchLists(GetLabel(fs), t, f, reg, NO_JUMP, NO_JUMP);
            ClosedRun(RunOf(fs', P, s, r0), fs'.here, o, fs.here, false, t, f, reg) && fs'.lasttarget == |fs'.code|
            && !RunOf(fs', P, s, r0).Stuck? && |fs'.code| == |fs.code| > 0
  {
    hide ListOK, TestsOK, ConstantsOK, Exec;
    var j := if t != [] then t[0] else f[0];
    assert j in SetOf(t) || j in SetOf(f);
    assert j in P + SetOf(t) + SetOf(f);
    PatchableList(fs.code, t, reg, P + SetOf(t) + SetOf(f), fs);
    PatchableList(fs.code, f, reg, P + SetOf(t) + SetOf(f), fs);
    PatchListsRun(GetLabel(fs), t, f, reg, NO_JUMP, NO_JUMP, P, s, r0);
  }

  lemma PatchableList(c: seq<Instr>, L: seq<int>, reg: int, Q: set<int>, fs: FS)
    requires WF(fs, Q) && SetOf(L) <= Q && c == fs.code
    requires NeedValue(c, L) ==> EndsWithBools(c, reg)
    ensures Patchable(c, L, reg)
  {
    forall j | j in L ensures 0 <= j < |c| && c[j].Jmp? { assert j in SetOf(L) && j in Q; }
  }

  /** The code with the two LOADBOOLs, before the lists are patched. */
  lemma BoolsReady(fs: FS, isJmp: bool, reg: int, Q: set<int>, s: int, r0: Regs)
    requires WF(fs, Q) && (isJmp ==> fs.here == []) && 0 <= s <= |fs.code| && !RunOf(fs, Q, s, r0).Stuck?
    ensures var o := RunOf(fs, Q, s, r0);
            var (fs1, fj) := SkipBools(fs, isJmp);
            var fs4 := GetLabel(PatchToHere(LoadBools(fs1, reg), fj));
            var o4 := RunOf(fs4, Q, s, r0);
            && WF(fs4, Q) && EndsWithBools(fs4.code, reg) && |fs4.code| == |fs1.code| + 2 && |fs.code| <= |fs1.code|
            && fs4.here == fj && fs4.lasttarget == |fs4.code| && !o4.Stuck?
            && (forall j :: j in fs4.here ==> j !in Q)
            && if isJmp then o4 == (if o.Fall? then Fall(Set(o.r, reg, Boolean(false))) else o) && fj == []
               else if Arrived(o, fs.here) then o4.Exit? && o4.at in fj && o4.r == o.r && o4.cv == HeldBy(o)
               else o4 == o
  {
    hide ListOK, TestsOK, ConstantsOK, Exec, SkipBools, LoadBools, PatchedAt;
    SkipBoolsOK(fs, isJmp, Q);
    SkipBoolsRun(fs, isJmp, Q, s, r0);
    var (fs1, fj) := SkipBools(fs, isJmp);
    LoadBoolsOK(fs1, reg, Q + SetOf(fj));
    LoadBoolsCode(fs1, reg);
    LoadBoolsRun(fs1, fj, reg, Q, s, r0);
    var fs3 := LoadBools(fs1, reg);
    ListKept(fs1.code, fs3.code, fj);
    PatchToHereOK(fs3, fj, Q);
    assert forall j :: j in fj ==> j in SetOf(fj);
  }

  lemma CloseWithBools(fs: FS, isJmp: bool, t: seq<int>, f: seq<int>, reg: int, P: set<int>, s: int, r0: Regs)
    requires WF(fs, P + SetOf(t) + SetOf(f)) && SetOf(t) !! SetOf(f) && SetOf(t) !! P && SetOf(f) !! P
    requires ListOK(fs.code, t) && ListOK(fs.code, f)
    requires reg >= 0 && (isJmp ==> fs.here == [])
    requires 0 <= s <= |fs.code| && !RunOf(fs, P + SetOf(t) + SetOf(f), s, r0).Stuck?
    ensures var o := RunOf(fs, P + SetOf(t) + SetOf(f), s, r0);
            var (fs1, fj) := SkipBools(fs, isJmp);
            var fs' := PatchLists(GetLabel(PatchToHere(LoadBools(fs1, reg), fj)), t, f, reg, |fs1.code|,
                |fs1.code| + 1);
            ClosedRun(RunOf(fs', P, s, r0), fs'.here, o, fs.here, isJmp, t, f, reg) && fs'.lasttarget == |fs'.code|
            && !RunOf(fs', P, s, r0).Stuck? && |fs.code| + 2 <= |fs'.code|
  {
    hide ListOK, TestsOK, ConstantsOK, Exec, SkipBools, LoadBools, PatchToHere, RunOf, EndsWithBools, PatchLists;
    var Q := P + SetOf(t) + SetOf(f);
    BoolsReady(fs, isJmp, reg, Q, s, r0);
    var (fs1, fj) := SkipBools(fs, isJmp);
    var fs4 := GetLabel(PatchToHere(LoadBools(fs1, reg), fj));
    PatchableList(fs4.code, t, reg, Q, fs4);
    PatchableList(fs4.code, f, reg, Q, fs4);
    PatchListsRun(fs4, t, f, reg, |fs1.code|, |fs1.code| + 1, P, s, r0);
    PatchListsKeep(fs4, t, f, reg, |fs1.code|, |fs1.code| + 1);
    assert forall j :: j in t || j in f ==> j in SetOf(t) || j in SetOf(f);
  }

  lemma PatchListsKeep(fs: FS, t: seq<int>, f: seq<int>, reg: int, pf: int, pt: int)
    ensures var fs' := PatchLists(fs, t, f, reg, pf, pt);
            fs'.here == fs.here && fs'.lasttarget == fs.lasttarget && |fs'.code| == |fs.code|
  {
  }

  // ---------------------------------------------------------------------
  // exp2reg and its callers

  /** The value is not already in the register. */
  predicate Moves(e: Desc, reg: int) {
    !((e.k.VNonReloc? || e.k.VLocal?) && e.k.reg == reg)
  }

  /** A run after the value of the expression went to reg: every way out of
      the expression arrives with the delivered value in the register. */
  ghost predicate Landed(o': Outcome, here': seq<int>, t: Track, P: set<int>, reg: int, base: int, moved: bool) {
    match t
    case Left(o) => o' == o && LeftBy(o', P)
    case On(w, r) =>
      if Closed(w).None? then o'.Fault?
      else Arrived(o', here') && (moved ==> HeldBy(o') == None) && Get(o'.r, reg) == Closed(w).value
           && forall i :: 0 <= i < base && i != reg ==> Get(o'.r, i) == Get(r, i)
  }

  lemma DisjointLists(fs: FS, e: Desc, P: set<int>)
    requires WFD(fs, e, P)
    ensures forall j :: j in e.t || j in e.f ==> j !in P && j !in fs.here
    ensures forall j :: j in e.t ==> j !in e.f
    ensures forall j :: j in P ==> j !in fs.here
  {
    forall j | j in e.t || j in e.f ensures j !in P && j !in fs.here && (j in e.t ==> j !in e.f) {
      assert j in Pending(e, P);
      assert j in e.t ==> j in SetOf(e.t);
      assert j in e.f ==> j in SetOf(e.f);
    }
    assert forall j :: j in P ==> j in Pending(e, P);
  }

  /** A VJmp has its jump moved to the true list. */
  lemma LinkJmpRun(fs: FS, e: Desc, P: set<int>, s: int, r0: Regs)
    requires WFD(fs, e, P) && RunToOK(fs, e, P, s, r0) && e.k.VJmp?
    requires var o := RunTo(fs, e, P, s, r0); Arrived(o, fs.here) ==> Decided(fs, e.k, o.r)
    ensures var pc := e.k.pc;
            var o := RunTo(fs, e, P, s, r0);
            var fs2 := fs.(code := Link(fs.code, e.t, [pc]));
            var t := e.t + [pc];
            && WF(fs2, P + SetOf(t) + SetOf(e.f)) && ListOK(fs2.code, t) && ListOK(fs2.code, e.f)
            && SetOf(t) !! SetOf(e.f) && SetOf(t) !! P && NeedValue(fs2.code, t)
            && 0 <= s <= |fs.code|
            && RunOf(fs2, P + SetOf(t) + SetOf(e.f), s, r0)
               == if o.Fall? then Branch(fs.code[pc - 1], fs.k, pc, o.r) else o
  {
    hide TestsOK, ConstantsOK, Exec, ListOK;
    var pc, n := e.k.pc, |fs.code|;
    LinkJmpOK(fs, e, P);
    var c' := Link(fs.code, e.t, [pc]);
    var Q := P + SetOf(e.t + [pc]) + SetOf(e.f);
    assert Pending(e, P) + SetOf([]) == Pending(e, P) && Q + SetOf([]) == Q;
    assert pc in e.t + [pc] && !Carries(c', pc);
    assert forall i :: i in e.t ==> i in SetOf(e.t);
    ExecAgree(fs.code, fs.k, Pending(e, P), c', fs.k, Q, s, n - 2, r0);
    ExecSplit(c', fs.k, Q, s, n - 2, n, r0);
    var o := RunTo(fs, e, P, s, r0);
    if o.Fall? { BranchExec(c', fs.k, Q, n - 2, o.r); }
  }

  lemma Exp2RegRun(fs: FS, e: Desc, reg: int, P: set<int>, s: int, r0: Regs, t: Track, base: int)
    requires WFD(fs, e, P) && RunToOK(fs, e, P, s, r0) && reg >= 0
    requires Follows(fs, e, P, RunTo(fs, e, P, s, r0), t, base)
    ensures var fs' := Exp2Reg(fs, e, reg).0;
            Landed(RunOf(fs', P, s, r0), fs'.here, t, P, reg, base, Moves(e, reg)) && RunOK(fs', P, s, r0)
  {
    hide TestsOK, ConstantsOK, Exec, ListOK, CloseLists, Compare, Distinct, IsFalse, Emit;
    if e.k.VJmp? {
      JmpToRegRun(fs, e, reg, P, s, r0, t, base);
    } else {
      DischargeToRegOK(fs, e, reg, P);
      DischargeToRegRun(fs, e, reg, P, s, r0);
      var fs1 := DischargeToReg(fs, e, reg).0;
      CloseListsRun(fs1, false, e.t, e.f, reg, P, s, r0);
      DisjointLists(fs, e, P);
      forall j | j in fs1.here ensures j !in e.t && j !in e.f {
        assert j in e.t || j in e.f ==> j in Pending(e, P);
      }
    }
  }

  lemma JmpToRegRun(fs: FS, e: Desc, reg: int, P: set<int>, s: int, r0: Regs, t: Track, base: int)
    requires WFD(fs, e, P) && RunToOK(fs, e, P, s, r0) && reg >= 0 && e.k.VJmp?
    requires Follows(fs, e, P, RunTo(fs, e, P, s, r0), t, base)
    ensures var fs' := CloseLists(fs.(code := Link(fs.code, e.t, [e.k.pc])), true, e.t + [e.k.pc], e.f, reg);
            Landed(RunOf(fs', P, s, r0), fs'.here, t, P, reg, base, Moves(e, reg)) && RunOK(fs', P, s, r0)
  {
    hide TestsOK, ConstantsOK, Exec, ListOK, CloseLists, Link;
    LinkJmpRun(fs, e, P, s, r0);
    var pc := e.k.pc;
    CloseListsRun(fs.(code := Link(fs.code, e.t, [pc])), true, e.t + [pc], e.f, reg, P, s, r0);
    assert forall j :: j in e.t + [pc] <==> j in e.t || j == pc;
    DisjointLists(fs, e, P);
  }

  /** luaK_exp2RK and luaK_exp2anyreg emit nothing for this descriptor. */
  predicate Ready(fs: FS, e: Desc) {
    !HasJumps(e) && (e.k.VNonReloc? || e.k.VLocal? || (e.k.VK? && e.k.i <= MAXINDEXRK))
  }

  /** A run after the value became an operand. */
  ghost predicate Operated(o': Outcome, fs': FS, d: Desc, t: Track, P: set<int>, base: int, ready: bool)
    requires d.k.VNonReloc? || (d.k.VK? && 0 <= d.k.i < |fs'.k|)
  {
    match t
    case Left(o) => o' == o && LeftBy(o', P)
    case On(w, r) =>
      if Closed(w).None? then o'.Fault?
      else
        && Arrived(o', fs'.here) && Agree(o'.r, r, base)
        && ValueOf(fs', d.k, o'.r) == Closed(w)
        && HeldBy(o') == (if ready && w.Through? then w.held else None)
  }

  lemma ReadyRun(fs: FS, e: Desc, P: set<int>, s: int, r0: Regs, t: Track, base: int)
    requires WFD(fs, e, P) && RunToOK(fs, e, P, s, r0) && !HasJumps(e)
    requires e.k.VNonReloc? || e.k.VK?
    requires Follows(fs, e, P, RunTo(fs, e, P, s, r0), t, base)
    ensures Operated(RunOf(fs, P, s, r0), fs, e, t, P, base, true) && RunOK(fs, P, s, r0)
  {
    assert Pending(e, P) == P;
  }

  lemma Exp2AnyRegRun(fs: FS, e: Desc, P: set<int>, s: int, r0: Regs, t: Track, base: int)
    requires WFD(fs, e, P) && RunToOK(fs, e, P, s, r0) && base <= fs.freereg
    requires Unplaced(fs, e) || !HasJumps(e)
    requires Follows(fs, e, P, RunTo(fs, e, P, s, r0), t, base)
    ensures var (fs', d) := Exp2AnyReg(fs, e);
            && d.k.VNonReloc?
            && Operated(RunOf(fs', P, s, r0), fs', d, t, P, base, Ready(fs, e) && !e.k.VK?)
            && RunOK(fs', P, s, r0)
  {
    hide WFD, RunToOK, RunOK, Follows, RunTo, Exp2Reg, Operated;
    var e1 := DischargeVars(e);
    VarsFollow(fs, e, P, s, r0, t, base);
    if e1.k.VNonReloc? && !HasJumps(e1) {
      ReadyRun(fs, e1, P, s, r0, t, base);
    } else {
      var fs1 := Reserve(fs, 1);
      ReserveFollows(fs, e1, P, s, r0, t, base);
      Exp2RegDesc(fs1, e1, fs.freereg);
      NextRegRun(fs1, e1, fs.freereg, P, s, r0, t, base);
    }
  }

  lemma VarsFollow(fs: FS, e: Desc, P: set<int>, s: int, r0: Regs, t: Track, base: int)
    requires WFD(fs, e, P) && RunToOK(fs, e, P, s, r0)
    requires Unplaced(fs, e) || !HasJumps(e)
    requires Follows(fs, e, P, RunTo(fs, e, P, s, r0), t, base)
    ensures var e1 := DischargeVars(e);
            && WFD(fs, e1, P) && RunToOK(fs, e1, P, s, r0) && Follows(fs, e1, P, RunTo(fs, e1, P, s, r0), t, base)
            && ((e1.k.VNonReloc? && !HasJumps(e1))
                || (Unplaced(fs, e1) && !e1.k.VLocal?
                    && Exp2AnyReg(fs, e) == Exp2Reg(Reserve(fs, 1), e1, fs.freereg)))
  {
    hide TestsOK, ConstantsOK, Exec, ListOK, Exp2Reg;
  }

  lemma ReserveFollows(fs: FS, e: Desc, P: set<int>, s: int, r0: Regs, t: Track, base: int)
    requires WFD(fs, e, P) && RunToOK(fs, e, P, s, r0)
    requires Follows(fs, e, P, RunTo(fs, e, P, s, r0), t, base)
    requires Unplaced(fs, e) && !e.k.VLocal?
    ensures var fs1 := Reserve(fs, 1);
            && WFD(fs1, e, P) && RunToOK(fs1, e, P, s, r0) && Follows(fs1, e, P, RunTo(fs1, e, P, s, r0), t, base)
            && Moves(e, fs.freereg) && fs.freereg >= 0
  {
    hide TestsOK, ConstantsOK, Exec, ListOK;
  }

  lemma NextRegRun(fs: FS, e: Desc, reg: int, P: set<int>, s: int, r0: Regs, t: Track, base: int)
    requires WFD(fs, e, P) && RunToOK(fs, e, P, s, r0) && base <= reg && 0 <= reg && Moves(e, reg)
    requires Follows(fs, e, P, RunTo(fs, e, P, s, r0), t, base)
    ensures var fs' := Exp2Reg(fs, e, reg).0;
            && Operated(RunOf(fs', P, s, r0), fs', Desc(VNonReloc(reg), [], []), t, P, base, false)
            && RunOK(fs', P, s, r0)
  {
    hide TestsOK, ConstantsOK, Exec, ListOK, Exp2Reg;
    Exp2RegRun(fs, e, reg, P, s, r0, t, base);
  }

  lemma Exp2RKRun(fs: FS, e: Desc, P: set<int>, s: int, r0: Regs, t: Track, base: int)
    requires WFD(fs, e, P) && RunToOK(fs, e, P, s, r0) && base <= fs.freereg
    requires Unplaced(fs, e) || !HasJumps(e)
    requires Follows(fs, e, P, RunTo(fs, e, P, s, r0), t, base)
    ensures var (fs', d) := Exp2RK(fs, e);
            && (d.k.VNonReloc? || (d.k.VK? && 0 <= d.k.i < |fs'.k|))
            && Operated(RunOf(fs', P, s, r0), fs', d, t, P, base,
                        Ready(fs, e) || (!HasJumps(e) && IsConst(e.k) && |fs.k| <= MAXINDEXRK))
            && RunOK(fs', P, s, r0)
  {
    hide TestsOK, ConstantsOK, Exec, ListOK, Exp2AnyReg, Operated, AddK;
    Exp2RKOK(fs, e, P);
    if HasJumps(e) {
      Exp2AnyRegOK(fs, e, P);
      Exp2AnyRegRun(fs, e, P, s, r0, t, base);
      var (fs1, e1) := Exp2AnyReg(fs, e);
      AnyRegDone(fs1, e1);
    } else {
      var e1 := DischargeVars(e);
      if IsConst(e.k) && |fs.k| <= MAXINDEXRK {
        ConstantRun(fs, e, P, s, r0, t, base);
      } else if e.k.VK? && e.k.i <= MAXINDEXRK {
        ReadyRun(fs, e, P, s, r0, t, base);
      } else {
        Exp2AnyRegRun(fs, e1, P, s, r0, t, base);
      }
    }
  }

  lemma ConstantRun(fs: FS, e: Desc, P: set<int>, s: int, r0: Regs, t: Track, base: int)
    requires WFD(fs, e, P) && RunToOK(fs, e, P, s, r0) && !HasJumps(e) && IsConst(e.k)
    requires Follows(fs, e, P, RunTo(fs, e, P, s, r0), t, base)
    ensures var (fs', i) := AddK(fs, ConstValue(e.k));
            0 <= i < |fs'.k| && Operated(RunOf(fs', P, s, r0), fs', e.(k := VK(i)), t, P, base, true)
            && RunOK(fs', P, s, r0)
  {
    hide TestsOK, ConstantsOK, Exec, ListOK;
    assert Pending(e, P) == P;
    AddKOK(fs, ConstValue(e.k), P);
    AddKRun(fs, ConstValue(e.k), P, s, r0);
  }

  lemma AnyRegDone(fs: FS, e: Desc)
    requires e.k.VNonReloc? && !HasJumps(e)
    ensures Exp2AnyReg(fs, e) == (fs, e)
  {
  }
}
