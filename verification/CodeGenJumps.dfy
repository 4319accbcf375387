/** No jump is left unpatched: every jump outside the pending lists leads
    forward, to a position in the code or right after it. */
module CodeGenJumps {
  import opened LuaValue
  import opened Bytecode
  import opened Expr
  import opened CodeGen
  import opened CodeGenStatic
  import opened CodeGenTheorems

  /** The jump at j leads forward and stays inside the code. */
  predicate Lands(c: seq<Instr>, j: int)
    requires 0 <= j < |c| && c[j].Jmp?
  {
    0 <= c[j].sbx && j + 1 + c[j].sbx <= |c|
  }

  predicate Patched(c: seq<Instr>, S: set<int>) {
    forall j :: 0 <= j < |c| && c[j].Jmp? && j !in S ==> Lands(c, j)
  }

  /** Only the jumps to the current position and those in S are unpatched. */
  predicate Only(fs: FS, S: set<int>) {
    Patched(fs.code, SetOf(fs.here) + S)
  }

  /** The jumps of a descriptor, its own one included. */
  function Own(e: Desc, P: set<int>): set<int> {
    Pending(e, P) + (if e.k.VJmp? then {e.k.pc} else {})
  }

  // ---------------------------------------------------------------------
  // Emitting

  lemma PatchLands(c: seq<Instr>, L: seq<int>, v: int, reg: int, d: int, S: set<int>)
    requires Patched(c, S + SetOf(L))
    requires forall j :: j in L && 0 <= j < |c| ==> j < (if Carries(c, j) then v else d) <= |c|
    ensures Patched(Patch(c, L, v, reg, d), S)
  {
    var c' := Patch(c, L, v, reg, d);
    forall j | 0 <= j < |c'| && c'[j].Jmp? && j !in S ensures Lands(c', j) {
      if j !in L { assert c[j].Jmp? && j !in S + SetOf(L); }
    }
  }

  lemma EmitOnly(fs: FS, i: Instr, P: set<int>)
    requires Only(fs, P) && !i.Jmp?
    ensures Only(Emit(fs, i), P)
  {
    var n := |fs.code|;
    assert SetOf(fs.here) + P == P + SetOf(fs.here);
    PatchLands(fs.code, fs.here, n, NO_REG, n, P);
    var c, c' := Patch(fs.code, fs.here, n, NO_REG, n), Emit(fs, i).code;
    assert SetOf([]) + P == P;
    forall j | 0 <= j < |c'| && c'[j].Jmp? && j !in P ensures Lands(c', j) {
      assert c'[j] == c[j] && Lands(c, j);
    }
  }

  lemma LinkOnly(c: seq<Instr>, l1: seq<int>, l2: seq<int>, S: set<int>)
    requires Patched(c, S) && SetOf(l1) <= S
    ensures Patched(Link(c, l1, l2), S)
  {
    var c' := Link(c, l1, l2);
    forall j | 0 <= j < |c'| && c'[j].Jmp? && j !in S ensures Lands(c', j) {
      if l1 != [] { assert l1[|l1| - 1] in SetOf(l1); }
      assert c'[j] == c[j] && Lands(c, j);
    }
  }

  lemma JumpOnly(fs: FS, P: set<int>)
    requires Only(fs, P)
    ensures var (fs', l) := Jump(fs); Only(fs', P + SetOf(l))
  {
    var n := |fs.code|;
    var (fs', l) := Jump(fs);
    var c := fs.code + [Jmp(NO_JUMP)];
    var S := SetOf(fs'.here) + (P + SetOf(l));
    assert n in l;
    forall j | 0 <= j < |c| && c[j].Jmp? && j !in S ensures Lands(c, j) {
      assert j != n && c[j] == fs.code[j];
      assert j !in l && forall x :: x in fs.here ==> x in l;
      assert Lands(fs.code, j);
    }
    assert SetOf([n]) <= S by { assert forall x :: x in [n] ==> x in l; }
    LinkOnly(c, [n], fs.here, S);
  }

  lemma CondJumpOnly(fs: FS, i: Instr, P: set<int>)
    requires Only(fs, P) && !i.Jmp?
    ensures var (fs', l) := CondJump(fs, i); Only(fs', P + SetOf(l))
  {
    EmitOnly(fs, i, P);
    JumpOnly(Emit(fs, i), P);
  }

  lemma PatchToHereOnly(fs: FS, l: seq<int>, P: set<int>)
    requires Only(fs, P + SetOf(l))
    ensures Only(PatchToHere(fs, l), P)
  {
    var S := SetOf(fs.here) + (P + SetOf(l));
    LinkOnly(fs.code, fs.here, l, S);
    assert forall j :: j in fs.here + l <==> j in fs.here || j in l;
    assert SetOf(fs.here + l) + P == S;
  }

  /** Replacing instructions other than jumps. */
  lemma SameJumps(fs: FS, fs': FS, P: set<int>)
    requires Only(fs, P) && fs'.here == fs.here && |fs'.code| == |fs.code|
    requires forall j :: 0 <= j < |fs.code| ==> fs'.code[j] == fs.code[j] || (!fs'.code[j].Jmp? && !fs.code[j].Jmp?)
    ensures Only(fs', P)
  {
    forall j | 0 <= j < |fs'.code| && fs'.code[j].Jmp? && j !in SetOf(fs'.here) + P ensures Lands(fs'.code, j) {
      assert Lands(fs.code, j);
    }
  }

  lemma EmitNilOnly(fs: FS, from: int, P: set<int>)
    requires Only(fs, P)
    ensures Only(EmitNil(fs, from, 1), P)
  {
    if |fs.code| > fs.lasttarget && |fs.code| == 0 && from >= fs.nactvar {
    } else if CanExtendNil(fs, from) {
      SameJumps(fs, EmitNil(fs, from, 1), P);
    } else {
      EmitOnly(fs, LoadNil(from, from), P);
    }
  }

  // ---------------------------------------------------------------------
  // Discharging

  lemma DischargeOnly(fs: FS, e: Desc, reg: int, P: set<int>)
    requires Only(fs, P)
    ensures Only(DischargeToReg(fs, e, reg).0, P)
  {
    match DischargeVars(e).k {
      case VNil => EmitNilOnly(fs, reg, P);
      case VFalse => EmitOnly(fs, LoadBool(reg, false, false), P);
      case VTrue => EmitOnly(fs, LoadBool(reg, true, false), P);
      case VK(i) => EmitOnly(fs, LoadK(reg, i), P);
      case VKNum(n) =>
        var (fs1, i) := AddK(fs, Number(Fin(n)));
        EmitOnly(fs1, LoadK(reg, i), P);
      case VReloc(pc) => SameJumps(fs, DischargeToReg(fs, e, reg).0, P);
      case VNonReloc(r) => if reg != r { EmitOnly(fs, Move(reg, r), P); }
      case _ =>
    }
  }

  lemma DischargeAnyOnly(fs: FS, e: Desc, P: set<int>)
    requires Only(fs, P)
    ensures Only(DischargeToAnyReg(fs, e).0, P)
  {
    DischargeOnly(Reserve(fs, 1), e, fs.freereg, P);
  }

  lemma LoadBoolsOnly(fs: FS, reg: int, P: set<int>)
    requires Only(fs, P)
    ensures Only(LoadBools(fs, reg), P)
  {
    var fs1 := Emit(GetLabel(fs), LoadBool(reg, false, true));
    EmitOnly(GetLabel(fs), LoadBool(reg, false, true), P);
    EmitOnly(GetLabel(fs1), LoadBool(reg, true, false), P);
  }

  lemma PatchListsOnly(fs: FS, t: seq<int>, f: seq<int>, reg: int, pf: int, pt: int, P: set<int>)
    requires Only(fs, P + SetOf(t) + SetOf(f)) && SetOf(t) !! SetOf(f) && ListOK(fs.code, f)
    requires forall j :: j in f && 0 <= j < |fs.code| ==> Carries(fs.code, j) || j < pf <= |fs.code|
    requires forall j :: j in t && 0 <= j < |fs.code| ==> Carries(fs.code, j) || j < pt <= |fs.code|
    ensures Only(PatchLists(fs, t, f, reg, pf, pt), P)
  {
    var end, H := |fs.code|, SetOf(fs.here);
    assert H + (P + SetOf(t) + SetOf(f)) == (H + P + SetOf(t)) + SetOf(f);
    PatchLands(fs.code, f, end, reg, pf, H + P + SetOf(t));
    var c := Patch(fs.code, f, end, reg, pf);
    forall j | j in t && 0 <= j < |c| ensures j < (if Carries(c, j) then end else pt) <= |c| {
      assert j in SetOf(t) && j !in f;
      if Carries(fs.code, j) { assert j - 1 !in f && c[j - 1] == fs.code[j - 1]; }
    }
    PatchLands(c, t, end, reg, pt, H + P);
  }

  lemma CloseListsOnly(fs: FS, isJmp: bool, t: seq<int>, f: seq<int>, reg: int, P: set<int>)
    requires WF(fs, P + SetOf(t) + SetOf(f)) && ListOK(fs.code, t) && ListOK(fs.code, f)
    requires SetOf(t) !! SetOf(f) && SetOf(t) !! P && SetOf(f) !! P
    requires Only(fs, P + SetOf(t) + SetOf(f))
    ensures Only(CloseLists(fs, isJmp, t, f, reg), P)
  {
    hide PatchTest, PatchedAt, Patch, Linked;
    var Q := P + SetOf(t) + SetOf(f);
    if t == [] && f == [] {
      assert Q == P;
    } else if NeedValue(fs.code, t) || NeedValue(fs.code, f) {
      var (fs1, fj) := SkipBools(fs, isJmp);
      SkipBoolsOK(fs, isJmp, Q);
      if !isJmp { JumpOnly(fs, Q); } else { assert Q + SetOf([]) == Q; }
      LoadBoolsOK(fs1, reg, Q + SetOf(fj));
      LoadBoolsOnly(fs1, reg, Q + SetOf(fj));
      var fs2 := LoadBools(fs1, reg);
      PatchToHereOnly(fs2, fj, Q);
      var fs3 := GetLabel(PatchToHere(fs2, fj));
      CloseKeeps(fs, fs1, fs2, fs3, fj, t, f, P);
      PatchListsOnly(fs3, t, f, reg, |fs1.code|, |fs1.code| + 1, P);
    } else {
      PatchListsOnly(GetLabel(fs), t, f, reg, NO_JUMP, NO_JUMP, P);
    }
  }

  /** The lists are still the ones before the LOADBOOLs were emitted. */
  lemma CloseKeeps(fs: FS, fs1: FS, fs2: FS, fs3: FS, fj: seq<int>, t: seq<int>, f: seq<int>, P: set<int>)
    requires ListOK(fs.code, t) && ListOK(fs.code, f) && |fs.code| <= |fs1.code|
    requires Frame(fs, fs1, P + SetOf(t) + SetOf(f)) && Frame(fs1, fs2, P + SetOf(t) + SetOf(f) + SetOf(fj))
    requires |fs2.code| == |fs1.code| + 2 && fs3 == GetLabel(PatchToHere(fs2, fj)) && fs2.here == []
    ensures ListOK(fs3.code, f)
    ensures forall j :: j in f && 0 <= j < |fs3.code| ==> j < |fs1.code| <= |fs3.code|
    ensures forall j :: j in t && 0 <= j < |fs3.code| ==> j < |fs1.code| + 1 <= |fs3.code|
  {
    ListKept(fs.code, fs2.code, f);
  }

  lemma Exp2RegOnly(fs: FS, e: Desc, reg: int, P: set<int>)
    requires WFD(fs, e, P) && Only(fs, Own(e, P))
    ensures Only(Exp2Reg(fs, e, reg).0, P)
  {
    hide ListOK, TestsOK, ConstantsOK, CloseLists, WF;
    DischargeToRegOK(fs, e, reg, P);
    var (fs1, e1) := DischargeToReg(fs, e, reg);
    if e1.k.VJmp? {
      LinkJmpOK(fs, e, P);
      var t := e.t + [e.k.pc];
      LinkOnly(fs.code, e.t, [e.k.pc], SetOf(fs.here) + Own(e, P));
      var fs2 := fs.(code := Link(fs.code, e.t, [e.k.pc]));
      CloseListsOnly(fs2, true, t, e.f, reg, P);
    } else {
      DischargeOnly(fs, e, reg, Own(e, P));
      CloseListsOnly(fs1, false, e.t, e.f, reg, P);
    }
  }

  lemma Exp2NextRegOnly(fs: FS, e: Desc, P: set<int>)
    requires WFD(fs, e, P) && Unplaced(fs, e) && !e.k.VLocal? && Only(fs, Own(e, P))
    ensures Only(Exp2NextReg(fs, e).0, P)
  {
    Exp2RegOnly(Reserve(fs, 1), e, fs.freereg, P);
  }

  lemma Exp2AnyRegOnly(fs: FS, e: Desc, P: set<int>)
    requires WFD(fs, e, P) && (Unplaced(fs, e) || !HasJumps(e)) && Only(fs, Own(e, P))
    ensures Only(Exp2AnyReg(fs, e).0, P)
  {
    var d := DischargeVars(e);
    if d.k.VNonReloc? && !HasJumps(d) {
      assert Own(e, P) == P;
    } else {
      assert Exp2AnyReg(fs, e) == Exp2NextReg(fs, d);
      assert Own(d, P) == Own(e, P);
      Exp2NextRegOnly(fs, d, P);
    }
  }

  lemma Exp2RKOnly(fs: FS, e: Desc, P: set<int>)
    requires WFD(fs, e, P) && (Unplaced(fs, e) || !HasJumps(e)) && Only(fs, Own(e, P))
    ensures Only(Exp2RK(fs, e).0, P)
  {
    hide Exp2AnyReg;
    if HasJumps(e) {
      Exp2AnyRegOK(fs, e, P);
      Exp2AnyRegOnly(fs, e, P);
    }
    var (fs1, e1) := Exp2Val(fs, e);
    if IsConst(e1.k) && |fs1.k| <= MAXINDEXRK {
      assert Own(e1, P) == P;
    } else if e1.k.VK? && e1.k.i <= MAXINDEXRK {
      assert Own(e1, P) == P;
    } else {
      if HasJumps(e) { assert Own(e1, P) == P; } else { assert Own(e1, P) == Own(e, P); }
      Exp2AnyRegOnly(fs1, e1, P);
    }
  }

  // ---------------------------------------------------------------------
  // Conditions

  lemma JumpOnCondOnly(fs: FS, e: Desc, cond: bool, Q: set<int>)
    requires WF(fs, Q) && KindOK(fs, e, Q) && !e.k.VJmp? && !e.k.VLocal? && Unplaced(fs, e) && Only(fs, Q)
    ensures var (fs', l) := JumpOnCond(fs, e, cond); Only(fs', Q + SetOf(l))
  {
    if e.k.VReloc? {
      var n, i := |fs.code| - 1, Test(fs.code[e.k.pc].b, !cond);
      var fs1 := fs.(code := fs.code[..n]);
      var (fs', l) := CondJump(fs1, i);
      assert Emit(fs1, i).code == fs.code[..n] + [i] by { PatchNothing(fs.code[..n]); }
      assert l == [n + 1];
      assert fs'.code == fs.code[..n] + [i] + [Jmp(NO_JUMP)];
      forall j | 0 <= j < |fs'.code| && fs'.code[j].Jmp? && j !in SetOf(fs'.here) + (Q + SetOf(l))
          ensures Lands(fs'.code, j) {
        assert j != n + 1 by { assert n + 1 in l; }
        assert fs'.code[j] == fs.code[j] && j !in fs.here && Lands(fs.code, j);
      }
    } else {
      DischargeToAnyRegOK(fs, e, Q);
      DischargeAnyOnly(fs, e, Q);
      var (fs1, e1) := DischargeToAnyReg(fs, e);
      CondJumpOnly(FreeExp(fs1, e1), TestSet(NO_REG, e1.k.reg, cond), Q);
    }
  }

  lemma PatchNothing(c: seq<Instr>)
    ensures Patch(c, [], |c|, NO_REG, |c|) == c
  {
  }

  lemma JumpOutOnly(fs: FS, e: Desc, cond: bool, P: set<int>)
    requires WFD(fs, e, P) && !e.k.VLocal? && Unplaced(fs, e) && Only(fs, Own(e, P))
    ensures var (fs', l) := if cond then JumpIfTrue(fs, e) else JumpIfFalse(fs, e);
            Only(fs', Pending(e, P) + SetOf(l))
  {
    var Q := Pending(e, P);
    assert KindOK(fs, e, Q);
    if e.k.VJmp? {
      assert Own(e, P) == Q + SetOf([e.k.pc]);
      if !cond { SameJumps(fs, fs.(code := InvertJump(fs.code, e.k.pc)), Own(e, P)); }
    } else if (cond && e.k.VTrue?) || (!cond && e.k.VFalse?) {
      assert Own(e, P) == Q;
      JumpOnly(fs, Q);
    } else if (cond && (e.k.VNil? || e.k.VFalse?)) || (!cond && (e.k.VK? || e.k.VKNum? || e.k.VTrue?)) {
      assert Own(e, P) == Q + SetOf([]);
    } else {
      assert Own(e, P) == Q;
      JumpOnCondOnly(fs, e, cond, Q);
    }
  }

  lemma JoinListsOnly(fs: FS, keep: seq<int>, l: seq<int>, close: seq<int>, P: set<int>)
    requires Only(fs, P + SetOf(keep) + SetOf(close) + SetOf(l))
    ensures Only(JoinLists(fs, keep, l, close), P + SetOf(keep + l))
  {
    var S := SetOf(fs.here) + (P + SetOf(keep) + SetOf(close) + SetOf(l));
    LinkOnly(fs.code, keep, l, S);
    assert forall j :: j in keep + l <==> j in keep || j in l;
    assert S == SetOf(fs.here) + (P + SetOf(keep + l) + SetOf(close));
    PatchToHereOnly(fs.(code := Link(fs.code, keep, l)), close, P + SetOf(keep + l));
  }

  lemma GoIfOnly(fs: FS, e: Desc, onTrue: bool, P: set<int>)
    requires WFD(fs, e, P) && Unplaced(fs, e) && Only(fs, Own(e, P))
    ensures var (fs', e') := if onTrue then GoIfTrue(fs, e) else GoIfFalse(fs, e);
            Only(fs', P + SetOf(if onTrue then e'.f else e'.t))
  {
    hide JumpIfTrue, JumpIfFalse, JoinLists;
    var d := DischargeVars(e);
    assert Own(d, P) == Own(e, P);
    JumpOutOnly(fs, d, !onTrue, P);
    if onTrue {
      var (fs1, l) := JumpIfFalse(fs, d);
      assert Pending(d, P) + SetOf(l) == P + SetOf(d.f) + SetOf(d.t) + SetOf(l);
      JoinListsOnly(fs1, d.f, l, d.t, P);
    } else {
      var (fs1, l) := JumpIfTrue(fs, d);
      assert Pending(d, P) + SetOf(l) == P + SetOf(d.t) + SetOf(d.f) + SetOf(l);
      JoinListsOnly(fs1, d.t, l, d.f, P);
    }
  }

  lemma CodeNotOnly(fs: FS, e: Desc, P: set<int>)
    requires WFD(fs, e, P) && Unplaced(fs, e) && Only(fs, Own(e, P))
    ensures var (fs', e') := CodeNot(fs, e); Only(fs', Own(e', P))
  {
    hide Carries, PatchedAt;
    var d := DischargeVars(e);
    var S := Own(e, P);
    var (fs1, k) := NegateValue(fs, d);
    if d.k.VJmp? {
      SameJumps(fs, fs1, S);
    } else if d.k.VReloc? || d.k.VNonReloc? {
      DischargeToAnyRegOK(fs, d, Pending(d, P));
      DischargeAnyOnly(fs, d, S);
      var (fs2, e2) := DischargeToAnyReg(fs, d);
      EmitOnly(FreeExp(fs2, e2), Not(0, e2.k.reg), S);
    }
    var fs2 := fs1.(code := DropValues(DropValues(fs1.code, d.t), d.f));
    SameJumps(fs1, fs2, S);
    assert Own(Desc(k, d.f, d.t), P) == S;
  }

  // ---------------------------------------------------------------------
  // Whole expressions

  lemma {:induction false} CompileOnly(fs: FS, e: Expr, P: set<int>)
    requires WF(fs, P) && Scoped(e, fs.nactvar) && Only(fs, P)
    ensures var (fs', d) := Compile(fs, e); Only(fs', Own(d, P))
    decreases e, 1
  {
    hide CodeNot, CodeComp, Exp2RK, ListOK, TestsOK, ConstantsOK, WF, KindOK;
    assert SetOf([]) == {};
    match e {
      case ENot(a) =>
        CompileOK(fs, a, P);
        CompileOnly(fs, a, P);
        var (fs1, d) := Compile(fs, a);
        CodeNotOnly(fs1, d, P);
      case EAnd(_, _) => CompileLogicOnly(fs, e, P);
      case EOr(_, _) => CompileLogicOnly(fs, e, P);
      case ECmp(op, a, b) => CompileCmpOnly(fs, e, P);
      case _ => assert P + {} == P;
    }
  }

  lemma {:induction false} CompileCmpOnly(fs: FS, e: Expr, P: set<int>)
    requires WF(fs, P) && Scoped(e, fs.nactvar) && Only(fs, P) && e.ECmp?
    ensures var (fs', d) := Compile(fs, e); Only(fs', Own(d, P))
    decreases e, 0
  {
    hide Exp2RK, ListOK, TestsOK, ConstantsOK, WF, KindOK, CondJump, CompInstr;
    CompileOK(fs, e.a, P);
    CompileOnly(fs, e.a, P);
    var (fs1, d1) := Compile(fs, e.a);
    Exp2RKOK(fs1, d1, P);
    Exp2RKOnly(fs1, d1, P);
    var (fs2, d2) := Exp2RK(fs1, d1);
    WFDisWF(fs2, d2, P);
    CompileOK(fs2, e.b, P);
    CompileOnly(fs2, e.b, P);
    var (fs3, d3) := Compile(fs2, e.b);
    Exp2RKDone(fs3, d2);
    Exp2RKOnly(fs3, d3, P);
    var (fs4, d4) := Exp2RK(fs3, d3);
    var i := CompInstr(e.op, OperandOf(d2), OperandOf(d4));
    CompNoJump(e.op, OperandOf(d2), OperandOf(d4));
    CondJumpOnly(FreeExp(FreeExp(fs4, d4), d2), i, P);
    CondJumpOne(FreeExp(FreeExp(fs4, d4), d2), i);
  }

  lemma WFDisWF(fs: FS, d: Desc, P: set<int>)
    requires WFD(fs, d, P) && d.t == [] && d.f == []
    ensures WF(fs, P)
  {
    assert Pending(d, P) == P;
  }

  lemma CompNoJump(op: BinCmp, a: RK, b: RK)
    ensures !CompInstr(op, a, b).Jmp?
  {
  }

  lemma CondJumpOne(fs: FS, i: Instr)
    ensures var (fs', l) := CondJump(fs, i); |l| == 1 && SetOf(l) == {l[0]}
  {
    var (fs', l) := CondJump(fs, i);
    assert l == [|fs.code| + 1] + [];
  }

  lemma {:induction false} CompileLogicOnly(fs: FS, e: Expr, P: set<int>)
    requires WF(fs, P) && Scoped(e, fs.nactvar) && Only(fs, P) && (e.EAnd? || e.EOr?)
    ensures var (fs', d) := Compile(fs, e); Only(fs', Own(d, P))
    decreases e, 0
  {
    hide GoIfTrue, GoIfFalse, ConstantsOK, ListOK, TestsOK, WF, KindOK;
    CompileOK(fs, e.a, P);
    CompileOnly(fs, e.a, P);
    var (fs1, d1) := Compile(fs, e.a);
    GoIfOnly(fs1, d1, e.EAnd?, P);
    if e.EAnd? {
      GoIfTrueOK(fs1, d1, P);
      var (fs2, d2) := GoIfTrue(fs1, d1);
      CompileOK(fs2, e.b, P + SetOf(d2.f));
      CompileOnly(fs2, e.b, P + SetOf(d2.f));
      var (fs3, d3) := Compile(fs2, e.b);
      JoinedOnly(fs3, d3, true, d2.f, P);
    } else {
      GoIfFalseOK(fs1, d1, P);
      var (fs2, d2) := GoIfFalse(fs1, d1);
      CompileOK(fs2, e.b, P + SetOf(d2.t));
      CompileOnly(fs2, e.b, P + SetOf(d2.t));
      var (fs3, d3) := Compile(fs2, e.b);
      JoinedOnly(fs3, d3, false, d2.t, P);
    }
  }

  lemma JoinedOnly(fs: FS, d: Desc, toF: bool, l: seq<int>, P: set<int>)
    requires Only(fs, Own(d, P + SetOf(l)))
    ensures Only(Joined(fs, if toF then d.f else d.t, l), Own(JoinedDesc(d, toF, l), P))
  {
    var keep := if toF then d.f else d.t;
    LinkOnly(fs.code, keep, l, SetOf(fs.here) + Own(d, P + SetOf(l)));
    assert forall j :: j in keep + l <==> j in keep || j in l;
    assert Own(JoinedDesc(d, toF, l), P) == Own(d, P + SetOf(l));
  }

  /** The code of a function `return e` has no unpatched jump: each leads
      forward to an instruction of the function. */
  lemma ReturnPatched(n: nat, e: Expr, j: int)
    requires Scoped(e, n)
    ensures var c := CompileReturn(NewFunction(n), e).code;
            0 <= j < |c| && c[j].Jmp? ==> 0 <= c[j].sbx && j + 1 + c[j].sbx < |c|
  {
    hide ListOK, TestsOK, ConstantsOK, Compile, Exp2AnyReg, KindOK;
    var fs := NewFunction(n);
    assert WF(fs, {}) by { EmptyListOK([]); NewOK(n); }
    assert Only(fs, {});
    CompileOK(fs, e, {});
    CompileOnly(fs, e, {});
    var (fs1, d) := Compile(fs, e);
    Exp2AnyRegOnly(fs1, d, {});
    var (fs2, d2) := Exp2AnyReg(fs1, d);
    EndPatched(fs2, Return(if d2.k.VNonReloc? then d2.k.reg else 0), j);
  }

  lemma NewOK(n: nat)
    ensures WF(NewFunction(n), {})
  {
  }

  lemma EndPatched(fs: FS, i: Instr, j: int)
    requires Only(fs, {}) && !i.Jmp?
    ensures var c := Emit(fs, i).code; 0 <= j < |c| && c[j].Jmp? ==> 0 <= c[j].sbx && j + 1 + c[j].sbx < |c|
  {
    var n := |fs.code|;
    assert SetOf(fs.here) + {} == {} + SetOf(fs.here);
    PatchLands(fs.code, fs.here, n, NO_REG, n, {});
    var c, c' := Patch(fs.code, fs.here, n, NO_REG, n), Emit(fs, i).code;
    if 0 <= j < |c'| && c'[j].Jmp? { assert c'[j] == c[j] && Lands(c, j); }
  }
}
