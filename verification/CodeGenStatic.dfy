/** What every operation of the code generator keeps, whatever the registers:
    jump lists are well formed and disjoint, pending jumps of enclosing
    expressions are not touched, and registers are freed again. */
module CodeGenStatic {
  import opened LuaValue
  import opened Bytecode
  import opened Expr
  import opened CodeGen

  /** The offset of the n-th jump of L leads to the next one, or ends the list. */
  predicate LinkedAt(c: seq<Instr>, L: seq<int>, n: int)
    requires 0 <= n < |L|
  {
    0 <= L[n] < |c| && c[L[n]] == Jmp(if n + 1 < |L| then L[n + 1] - (L[n] + 1) else NO_JUMP)
  }

  /** L is threaded through the offsets of its own jumps. */
  predicate Linked(c: seq<Instr>, L: seq<int>) {
    && (forall j :: j in L ==> 0 <= j < |c| && c[j].Jmp?)
    && (forall n {:trigger LinkedAt(c, L, n)} :: 0 <= n < |L| ==> LinkedAt(c, L, n))
  }

  predicate Distinct(L: seq<int>) {
    forall m, n :: 0 <= m < n < |L| ==> L[m] != L[n]
  }

  predicate ListOK(c: seq<Instr>, L: seq<int>) {
    Distinct(L) && Linked(c, L)
  }

  predicate ConstantsOK(k: seq<Value>, index: map<Value, int>) {
    && (forall v :: v in index ==> 0 <= index[v] < |k| && k[index[v]] == v)
    && (forall v :: v in k ==> v in index)
  }

  /** Every test is followed by its jump. */
  predicate TestsOK(c: seq<Instr>) {
    forall i {:trigger IsTest(c[i])} :: 0 <= i < |c| && IsTest(c[i]) ==> i + 1 < |c| && c[i + 1].Jmp?
  }

  /** P holds the jumps pending in enclosing expressions. */
  predicate WF(fs: FS, P: set<int>) {
    && ListOK(fs.code, fs.here) && TestsOK(fs.code)
    && (forall j :: j in P ==> 0 <= j < |fs.code| && fs.code[j].Jmp? && j !in fs.here)
    && fs.lasttarget <= |fs.code|
    && (fs.here != [] ==> fs.lasttarget == |fs.code|)
    && 0 <= fs.nactvar <= fs.freereg
    && ConstantsOK(fs.k, fs.kindex)
  }

  predicate KindOK(fs: FS, e: Desc, P: set<int>) {
    match e.k
    case VReloc(pc) => pc == |fs.code| - 1 && 0 <= pc && fs.code[pc].Not? && fs.here == [] && fs.lasttarget <= pc
    case VJmp(pc) =>
      && pc == |fs.code| - 1 && 1 <= pc && fs.code[pc] == Jmp(NO_JUMP) && fs.code[pc - 1].Comp?
      && fs.here == [] && fs.lasttarget <= pc - 1 && pc !in P && pc !in e.t && pc !in e.f
    case VLocal(r) => 0 <= r < fs.nactvar
    case VNonReloc(r) => 0 <= r < fs.freereg && (r < fs.nactvar || r == fs.freereg - 1)
    case VK(i) => 0 <= i < |fs.k|
    case _ => true
  }

  function Pending(e: Desc, P: set<int>): set<int> {
    P + SetOf(e.t) + SetOf(e.f)
  }

  predicate WFD(fs: FS, e: Desc, P: set<int>) {
    && WF(fs, Pending(e, P))
    && ListOK(fs.code, e.t) && ListOK(fs.code, e.f)
    && SetOf(e.t) !! SetOf(e.f) && SetOf(e.t) !! P && SetOf(e.f) !! P
    && KindOK(fs, e, P)
  }

  /** Nothing pending in P is touched; constants are only added. */
  predicate Frame(fs: FS, fs': FS, P: set<int>) {
    && (forall j :: j in P && 0 <= j < |fs.code| ==> j < |fs'.code| && fs'.code[j] == fs.code[j])
    && fs.k <= fs'.k && fs'.nactvar == fs.nactvar
  }

  lemma EmptyListOK(c: seq<Instr>)
    ensures ListOK(c, [])
  {
  }

  lemma ListKept(c: seq<Instr>, c': seq<Instr>, L: seq<int>)
    requires ListOK(c, L)
    requires forall j :: j in L && 0 <= j < |c| ==> j < |c'| && c'[j] == c[j]
    ensures ListOK(c', L)
  {
    forall n | 0 <= n < |L| ensures LinkedAt(c', L, n) {
      assert L[n] in L && LinkedAt(c, L, n);
    }
  }

  lemma ConcatDistinct(l1: seq<int>, l2: seq<int>)
    requires Distinct(l1) && Distinct(l2) && SetOf(l1) !! SetOf(l2)
    ensures Distinct(l1 + l2)
    ensures SetOf(l1 + l2) == SetOf(l1) + SetOf(l2)
  {
    forall m, n | 0 <= m < n < |l1 + l2|
      ensures (l1 + l2)[m] != (l1 + l2)[n]
    {
      if m < |l1| <= n {
        assert l1[m] in SetOf(l1) && l2[n - |l1|] in SetOf(l2);
      }
    }
    assert forall j :: j in l1 + l2 <==> j in l1 || j in l2;
  }

  lemma LinkOK(c: seq<Instr>, l1: seq<int>, l2: seq<int>)
    requires ListOK(c, l1) && ListOK(c, l2) && SetOf(l1) !! SetOf(l2)
    ensures ListOK(Link(c, l1, l2), l1 + l2)
    ensures forall i :: 0 <= i < |c| && i !in l1 ==> Link(c, l1, l2)[i] == c[i]
    ensures forall i :: 0 <= i < |c| ==> Link(c, l1, l2)[i] == c[i] || (c[i].Jmp? && Link(c, l1, l2)[i].Jmp?)
    ensures SetOf(l1 + l2) == SetOf(l1) + SetOf(l2)
  {
    ConcatDistinct(l1, l2);
    if l1 == [] {
      assert l1 + l2 == l2;
    } else if l2 == [] {
      assert l1 + l2 == l1;
    } else {
      var j := l1[|l1| - 1];
      assert j in SetOf(l1);
      var l, c' := l1 + l2, Link(c, l1, l2);
      assert forall i :: i in l ==> i in l1 || i in l2;
      forall n | 0 <= n < |l| ensures LinkedAt(c', l, n) {
        assert l[n] in l;
        if n < |l1| {
          assert LinkedAt(c, l1, n);
        } else {
          assert l[n] == l2[n - |l1|] && l[n] in SetOf(l2) && LinkedAt(c, l2, n - |l1|);
        }
      }
    }
  }

  /** Instructions may change as long as tests and jumps stay where they are. */
  lemma TestsKept(c: seq<Instr>, c': seq<Instr>)
    requires TestsOK(c) && |c'| == |c|
    requires forall i :: 0 <= i < |c| ==> IsTest(c'[i]) == IsTest(c[i]) && c'[i].Jmp? == c[i].Jmp?
    ensures TestsOK(c')
  {
    forall i | 0 <= i < |c'| && IsTest(c'[i]) ensures i + 1 < |c'| && c'[i + 1].Jmp? {
      assert IsTest(c[i]);
    }
  }

  lemma EmitOK(fs: FS, i: Instr, P: set<int>)
    requires WF(fs, P) && !IsTest(i)
    ensures WF(Emit(fs, i), P) && Frame(fs, Emit(fs, i), P)
    ensures |Emit(fs, i).code| == |fs.code| + 1 && Emit(fs, i).code[|fs.code|] == i
    ensures Emit(fs, i).lasttarget <= |fs.code|
  {
    PatchHereOK(fs, P);
  }

  lemma PatchHereOK(fs: FS, P: set<int>)
    requires WF(fs, P)
    ensures var c := Patch(fs.code, fs.here, |fs.code|, NO_REG, |fs.code|);
            TestsOK(c) && forall j :: j in P ==> c[j] == fs.code[j]
  {
    TestsKept(fs.code, Patch(fs.code, fs.here, |fs.code|, NO_REG, |fs.code|));
  }

  lemma JumpOK(fs: FS, P: set<int>)
    requires WF(fs, P)
    ensures var (fs', l) := Jump(fs);
            && WF(fs', P + SetOf(l)) && Frame(fs, fs', P) && ListOK(fs'.code, l) && SetOf(l) !! P
            && |fs'.code| == |fs.code| + 1 && fs'.lasttarget <= |fs.code|
            && SetOf(l) == SetOf(fs.here) + {|fs.code|}
            && l != [] && l[0] == |fs.code| && fs'.code[..|fs.code|] == fs.code && fs'.code[|fs.code|].Jmp?
            && (fs.here == [] ==> l == [|fs.code|] && fs'.code == fs.code + [Jmp(NO_JUMP)])
  {
    var j := |fs.code|;
    var c := fs.code + [Jmp(NO_JUMP)];
    ListKept(fs.code, c, fs.here);
    LinkOK(c, [j], fs.here);
  }

  lemma CondJumpOK(fs: FS, i: Instr, P: set<int>)
    requires WF(fs, P)
    ensures var (fs', l) := CondJump(fs, i);
            && WF(fs', P + SetOf(l)) && Frame(fs, fs', P) && ListOK(fs'.code, l) && SetOf(l) !! P
            && |fs'.code| == |fs.code| + 2 && fs'.lasttarget <= |fs.code|
            && l == [|fs.code| + 1] && fs'.here == [] && fs'.k == fs.k && fs'.freereg == fs.freereg
            && fs'.code == Patch(fs.code, fs.here, |fs.code|, NO_REG, |fs.code|) + [i, Jmp(NO_JUMP)]
  {
    PatchHereOK(fs, P);
    var (fs', l) := CondJump(fs, i);
    assert LinkedAt(fs'.code, l, 0);
  }

  lemma PatchToHereOK(fs: FS, l: seq<int>, P: set<int>)
    requires WF(fs, P + SetOf(l)) && ListOK(fs.code, l) && SetOf(l) !! P
    ensures WF(PatchToHere(fs, l), P) && Frame(fs, PatchToHere(fs, l), P)
    ensures SetOf(PatchToHere(fs, l).here) == SetOf(fs.here) + SetOf(l)
  {
    forall j | j in l ensures j !in fs.here { assert j in P + SetOf(l); }
    assert SetOf(fs.here) !! SetOf(l);
    LinkOK(fs.code, fs.here, l);
  }

  lemma EmitNilOK(fs: FS, from: int, P: set<int>)
    requires WF(fs, P)
    ensures WF(EmitNil(fs, from, 1), P) && Frame(fs, EmitNil(fs, from, 1), P)
    ensures EmitNil(fs, from, 1).here == []
    ensures |fs.code| <= |EmitNil(fs, from, 1).code|
  {
    EmitOK(fs, LoadNil(from, from), P);
  }

  /** The value of the descriptor is not in a temporary register. */
  predicate Unplaced(fs: FS, e: Desc) {
    e.k.VNonReloc? ==> e.k.reg < fs.nactvar
  }

  lemma AddKOK(fs: FS, v: Value, P: set<int>)
    requires WF(fs, P)
    ensures var (fs', i) := AddK(fs, v);
            WF(fs', P) && Frame(fs, fs', P) && 0 <= i < |fs'.k| && fs'.k[i] == v
                && fs' == fs.(k := fs'.k, kindex := fs'.kindex)
  {
  }

  lemma FrameKeeps(fs: FS, fs': FS, e: Desc, P: set<int>)
    requires ListOK(fs.code, e.t) && ListOK(fs.code, e.f) && Frame(fs, fs', Pending(e, P))
    ensures ListOK(fs'.code, e.t) && ListOK(fs'.code, e.f)
  {
    assert forall j :: j in e.t || j in e.f ==> j in Pending(e, P);
    ListKept(fs.code, fs'.code, e.t);
    ListKept(fs.code, fs'.code, e.f);
  }

  lemma DischargeFrame(fs: FS, e: Desc, reg: int, Q: set<int>)
    requires WF(fs, Q) && KindOK(fs, e, Q)
    ensures var fs' := DischargeToReg(fs, e, reg).0;
            WF(fs', Q) && Frame(fs, fs', Q) && fs'.freereg == fs.freereg && |fs.code| <= |fs'.code|
  {
    hide ListOK, TestsOK, ConstantsOK, AddK;
    match e.k
    case VNil => EmitNilOK(fs, reg, Q);
    case VFalse => EmitOK(fs, LoadBool(reg, false, false), Q);
    case VTrue => EmitOK(fs, LoadBool(reg, true, false), Q);
    case VK(i) => EmitOK(fs, LoadK(reg, i), Q);
    case VKNum(n) =>
      AddKOK(fs, Number(Fin(n)), Q);
      var (fs1, i) := AddK(fs, Number(Fin(n)));
      EmitOK(fs1, LoadK(reg, i), Q);
    case VNonReloc(r) => EmitOK(fs, Move(reg, r), Q);
    case VLocal(r) => EmitOK(fs, Move(reg, r), Q);
    case VReloc(pc) => SetArgAOK(fs, pc, reg, Q);
    case VJmp(_) =>
  }

  lemma SetArgAOK(fs: FS, pc: int, reg: int, Q: set<int>)
    requires WF(fs, Q) && 0 <= pc < |fs.code| && fs.code[pc].Not? && fs.here == []
    ensures var fs' := fs.(code := SetArgA(fs.code, pc, reg));
            WF(fs', Q) && Frame(fs, fs', Q)
  {
  }

  lemma DischargeToRegOK(fs: FS, e: Desc, reg: int, P: set<int>)
    requires WFD(fs, e, P)
    ensures var (fs', e') := DischargeToReg(fs, e, reg);
            && e'.t == e.t && e'.f == e.f
            && WF(fs', Pending(e, P)) && Frame(fs, fs', Pending(e, P))
            && ListOK(fs'.code, e.t) && ListOK(fs'.code, e.f)
            && fs'.freereg == fs.freereg && |fs.code| <= |fs'.code|
            && (if e.k.VJmp? then (fs', e') == (fs, e) else e'.k == VNonReloc(reg))
  {
    assert KindOK(fs, e, Pending(e, P));
    DischargeFrame(fs, e, reg, Pending(e, P));
    FrameKeeps(fs, DischargeToReg(fs, e, reg).0, e, P);
  }

  lemma SkipBoolsOK(fs: FS, isJmp: bool, P: set<int>)
    requires WF(fs, P)
    ensures var (fs', l) := SkipBools(fs, isJmp);
            && WF(fs', P + SetOf(l)) && Frame(fs, fs', P) && ListOK(fs'.code, l) && SetOf(l) !! P
            && |fs.code| <= |fs'.code| && fs'.freereg == fs.freereg
  {
    if isJmp { assert P + SetOf([]) == P; } else { JumpOK(fs, P); }
  }

  lemma LoadBoolsOK(fs: FS, reg: int, P: set<int>)
    requires WF(fs, P)
    ensures WF(LoadBools(fs, reg), P) && Frame(fs, LoadBools(fs, reg), P)
    ensures |LoadBools(fs, reg).code| == |fs.code| + 2 && LoadBools(fs, reg).freereg == fs.freereg
  {
    EmitOK(GetLabel(fs), LoadBool(reg, false, true), P);
    EmitOK(GetLabel(Emit(GetLabel(fs), LoadBool(reg, false, true))), LoadBool(reg, true, false), P);
  }

  lemma CloseListsOK(fs: FS, isJmp: bool, t: seq<int>, f: seq<int>, reg: int, P: set<int>)
    requires WF(fs, P + SetOf(t) + SetOf(f)) && ListOK(fs.code, t) && ListOK(fs.code, f)
    requires SetOf(t) !! P && SetOf(f) !! P
    ensures var fs' := CloseLists(fs, isJmp, t, f, reg);
            WF(fs', P) && Frame(fs, fs', P) && fs'.freereg == fs.freereg && |fs.code| <= |fs'.code|
  {
    hide SkipBools, LoadBools, PatchLists, NeedValue, ListOK, ConstantsOK;
    var Q := P + SetOf(t) + SetOf(f);
    assert forall j :: j in P ==> j in Q;
    assert forall j :: j in P ==> j !in t && j !in f;
    if t == [] && f == [] {
    } else if NeedValue(fs.code, t) || NeedValue(fs.code, f) {
      SkipBoolsOK(fs, isJmp, Q);
      var (fs1, fj) := SkipBools(fs, isJmp);
      var fs3 := LoadBools(fs1, reg);
      LoadBoolsOK(fs1, reg, Q + SetOf(fj));
      ListKept(fs1.code, fs3.code, fj);
      PatchToHereOK(fs3, fj, Q);
      PatchListsOK(GetLabel(PatchToHere(fs3, fj)), t, f, reg, |fs1.code|, |fs1.code| + 1, P);
    } else {
      PatchListsOK(GetLabel(fs), t, f, reg, NO_JUMP, NO_JUMP, P);
    }
  }

  lemma PatchListsOK(fs: FS, t: seq<int>, f: seq<int>, reg: int, pf: int, pt: int, P: set<int>)
    requires WF(fs, P + SetOf(t) + SetOf(f))
    requires SetOf(t) !! P && SetOf(f) !! P
    ensures var fs' := PatchLists(fs, t, f, reg, pf, pt);
            WF(fs', P) && Frame(fs, fs', P) && fs'.freereg == fs.freereg && |fs'.code| == |fs.code|
  {
    var Q := P + SetOf(t) + SetOf(f);
    assert forall j :: j in P || j in t || j in f ==> j in Q;
    assert forall j :: j in P ==> j !in t && j !in f;
    ListKept(fs.code, PatchLists(fs, t, f, reg, pf, pt).code, fs.here);
  }

  /** The jump of a VJmp goes to the end of the true list. */
  lemma LinkJmpOK(fs: FS, e: Desc, P: set<int>)
    requires WFD(fs, e, P) && e.k.VJmp?
    ensures var fs2 := fs.(code := Link(fs.code, e.t, [e.k.pc]));
            var t := e.t + [e.k.pc];
            && WF(fs2, P + SetOf(t) + SetOf(e.f)) && ListOK(fs2.code, t) && ListOK(fs2.code, e.f)
            && SetOf(t) !! SetOf(e.f) && SetOf(t) !! P && Frame(fs, fs2, P)
            && P + SetOf(t) + SetOf(e.f) == Pending(e, P) + {e.k.pc}
            && ListOK(fs.code, [e.k.pc])
            && (forall i :: 0 <= i < |fs.code| ==>
                fs2.code[i] == fs.code[i] || (i in e.t && fs.code[i].Jmp? && fs2.code[i].Jmp?))
  {
    hide ConstantsOK, TestsOK;
    var pc := e.k.pc;
    assert LinkedAt(fs.code, [pc], 0);
    LinkOK(fs.code, e.t, [pc]);
    var c' := Link(fs.code, e.t, [pc]);
    assert P + SetOf(e.t + [pc]) + SetOf(e.f) == Pending(e, P) + {pc};
    forall j | j in e.t ensures j !in e.f && j !in P && j !in fs.here {
      assert j in SetOf(e.t) && j in Pending(e, P);
    }
    ListKept(fs.code, c', e.f);
    ListKept(fs.code, c', fs.here);
    TestsKept(fs.code, c');
  }

  lemma Exp2RegOK(fs: FS, e: Desc, reg: int, P: set<int>)
    requires WFD(fs, e, P)
    ensures var fs' := Exp2Reg(fs, e, reg).0;
            WF(fs', P) && Frame(fs, fs', P) && fs'.freereg == fs.freereg
  {
    DischargeToRegOK(fs, e, reg, P);
    var (fs1, e1) := DischargeToReg(fs, e, reg);
    hide ListOK, TestsOK, ConstantsOK, CloseLists;
    if e1.k.VJmp? {
      LinkJmpOK(fs, e, P);
      CloseListsOK(fs.(code := Link(fs.code, e.t, [e.k.pc])), true, e.t + [e.k.pc], e.f, reg, P);
    } else {
      CloseListsOK(fs1, false, e.t, e.f, reg, P);
    }
  }

  lemma Exp2RegDesc(fs: FS, e: Desc, reg: int)
    ensures Exp2Reg(fs, e, reg).1 == Desc(VNonReloc(reg), [], [])
  {
  }

  lemma Exp2NextRegOK(fs: FS, e: Desc, P: set<int>)
    requires WFD(fs, e, P) && Unplaced(fs, e) && !e.k.VLocal?
    ensures var (fs', e') := Exp2NextReg(fs, e);
            && WF(fs', P) && Frame(fs, fs', P) && fs'.freereg == fs.freereg + 1
            && e' == Desc(VNonReloc(fs.freereg), [], [])
  {
    hide TestsOK, ConstantsOK, ListOK, Exp2Reg;
    Exp2RegDesc(Reserve(fs, 1), e, fs.freereg);
    Exp2RegOK(Reserve(fs, 1), e, fs.freereg, P);
  }

  lemma Exp2AnyRegOK(fs: FS, e: Desc, P: set<int>)
    requires WFD(fs, e, P) && (Unplaced(fs, e) || !HasJumps(e))
    ensures var (fs', e') := Exp2AnyReg(fs, e);
            && WFD(fs', e', P) && Frame(fs, fs', P)
            && e'.k.VNonReloc? && e'.t == [] && e'.f == []
            && (e'.k.reg >= fs.nactvar && Unplaced(fs, e) ==> e'.k.reg == fs.freereg)
            && fs'.freereg == if e'.k.reg >= fs.nactvar && Unplaced(fs, e) then fs.freereg + 1 else fs.freereg
  {
    var d := DischargeVars(e);
    if d.k.VNonReloc? && !HasJumps(d) {
    } else {
      assert Exp2AnyReg(fs, e) == Exp2NextReg(fs, d);
      Exp2NextRegOK(fs, d, P);
    }
  }

  lemma Exp2RKOK(fs: FS, e: Desc, P: set<int>)
    requires WFD(fs, e, P) && (Unplaced(fs, e) || !HasJumps(e))
    ensures var (fs', e') := Exp2RK(fs, e);
            && WFD(fs', e', P) && Frame(fs, fs', P)
            && (e'.k.VNonReloc? || (e'.k.VK? && e'.k.i <= MAXINDEXRK)) && e'.t == [] && e'.f == []
            && (e'.k.VNonReloc? && e'.k.reg >= fs.nactvar && Unplaced(fs, e) ==> e'.k.reg == fs.freereg)
            && fs'.freereg == if e'.k.VNonReloc? && e'.k.reg >= fs.nactvar && Unplaced(fs, e)
                              then fs.freereg + 1 else fs.freereg
  {
    if HasJumps(e) { Exp2AnyRegOK(fs, e, P); }
    var (fs1, e1) := Exp2Val(fs, e);
    if IsConst(e1.k) && |fs1.k| <= MAXINDEXRK {
      AddKOK(fs1, ConstValue(e1.k), P);
    } else if e1.k.VK? && e1.k.i <= MAXINDEXRK {
    } else {
      Exp2AnyRegOK(fs1, e1, P);
    }
  }

  /** Facts about an operation that makes the new list l. */
  predicate NewList(fs: FS, fs': FS, l: seq<int>, Q: set<int>) {
    && WF(fs', Q + SetOf(l)) && Frame(fs, fs', Q)
    && ListOK(fs'.code, l) && SetOf(l) !! Q
    && fs'.freereg == fs.freereg
  }

  lemma DischargeToAnyRegOK(fs: FS, e: Desc, Q: set<int>)
    requires WF(fs, Q) && KindOK(fs, e, Q) && !e.k.VJmp? && !e.k.VLocal? && Unplaced(fs, e)
    ensures var (fs', e') := DischargeToAnyReg(fs, e);
            var fs1 := FreeExp(fs', e');
            && e'.k.VNonReloc? && WF(fs1, Q) && Frame(fs, fs1, Q) && fs1.freereg == fs.freereg
            && fs1.code == fs'.code && fs1.here == fs'.here && |fs.code| <= |fs1.code|
            && e'.k.reg == (if e.k.VNonReloc? then e.k.reg else fs.freereg)
  {
    hide ListOK, ConstantsOK;
    if !e.k.VNonReloc? {
      DischargeFrame(Reserve(fs, 1), e, fs.freereg, Q);
    }
  }

  /** removelastinstruction */
  lemma RemoveLastOK(fs: FS, Q: set<int>)
    requires WF(fs, Q) && |fs.code| > 0 && fs.code[|fs.code| - 1].Not? && fs.here == []
    requires fs.lasttarget <= |fs.code| - 1
    ensures WF(fs.(code := fs.code[..|fs.code| - 1]), Q)
  {
    hide ConstantsOK;
    assert ListOK(fs.code[..|fs.code| - 1], []);
  }

  lemma JumpOnCondOK(fs: FS, e: Desc, cond: bool, Q: set<int>)
    requires WF(fs, Q) && KindOK(fs, e, Q) && !e.k.VJmp? && !e.k.VLocal? && Unplaced(fs, e)
    ensures var (fs', l) := JumpOnCond(fs, e, cond);
            NewList(fs, fs', l, Q) && |l| == 1 && fs'.here == []
  {
    hide ListOK, TestsOK, ConstantsOK, CondJump, DischargeToAnyReg, Patch;
    if e.k.VReloc? {
      var fs1 := fs.(code := fs.code[..|fs.code| - 1]);
      RemoveLastOK(fs, Q);
      CondJumpOK(fs1, Test(fs.code[e.k.pc].b, !cond), Q);
    } else {
      DischargeToAnyRegOK(fs, e, Q);
      var (fs1, e1) := DischargeToAnyReg(fs, e);
      CondJumpOK(FreeExp(fs1, e1), TestSet(NO_REG, e1.k.reg, cond), Q);
    }
  }

  /** luaK_goiftrue and luaK_goiffalse on a value that needs no jump, and on a
      comparison. */
  lemma NoJumpOK(fs: FS, Q: set<int>)
    requires WF(fs, Q)
    ensures NewList(fs, fs, [], Q)
  {
    assert Q + SetOf([]) == Q;
  }

  lemma JmpOutOK(fs: FS, e: Desc, cond: bool, P: set<int>)
    requires WFD(fs, e, P) && e.k.VJmp?
    ensures NewList(fs, if cond then fs else fs.(code := InvertJump(fs.code, e.k.pc)), [e.k.pc], Pending(e, P))
  {
    var c := InvertJump(fs.code, e.k.pc);
    assert LinkedAt(fs.code, [e.k.pc], 0) && LinkedAt(c, [e.k.pc], 0);
  }

  lemma JumpOutOK(fs: FS, e: Desc, cond: bool, P: set<int>)
    requires WFD(fs, e, P) && !e.k.VLocal? && Unplaced(fs, e)
    ensures var (fs', l) := if cond then JumpIfTrue(fs, e) else JumpIfFalse(fs, e);
            NewList(fs, fs', l, Pending(e, P))
  {
    hide ListOK, TestsOK, ConstantsOK, JumpOnCond, InvertJump;
    var Q := Pending(e, P);
    if e.k.VJmp? {
      JmpOutOK(fs, e, cond, P);
    } else if (cond && e.k.VTrue?) || (!cond && e.k.VFalse?) {
      JumpOK(fs, Q);
    } else if (cond && (e.k.VNil? || e.k.VFalse?)) || (!cond && (e.k.VK? || e.k.VKNum? || e.k.VTrue?)) {
      NoJumpOK(fs, Q);
    } else {
      JumpOnCondOK(fs, e, cond, Q);
    }
  }

  lemma JoinListsOK(fs: FS, keep: seq<int>, l: seq<int>, close: seq<int>, P: set<int>)
    requires WF(fs, P + SetOf(keep) + SetOf(close) + SetOf(l))
    requires ListOK(fs.code, keep) && ListOK(fs.code, l) && ListOK(fs.code, close)
    requires SetOf(keep) !! SetOf(close) !! SetOf(l) !! P
    ensures var fs' := JoinLists(fs, keep, l, close);
            && NewList(fs, fs', keep + l, P)
            && SetOf(fs'.here) == SetOf(fs.here) + SetOf(close)
            && SetOf(keep + l) == SetOf(keep) + SetOf(l)
            && |fs'.code| == |fs.code|
  {
    LinkOK(fs.code, keep, l);
    var fs1 := fs.(code := Link(fs.code, keep, l));
    assert forall j :: j in P + SetOf(keep) + SetOf(close) + SetOf(l) <==> j in (P + SetOf(keep + l)) + SetOf(close);
    forall j | j in keep ensures j !in close && j !in P && j !in fs.here {
      assert j in SetOf(keep) && j in P + SetOf(keep) + SetOf(close) + SetOf(l);
      assert j !in SetOf(close);
    }
    ListKept(fs.code, fs1.code, close);
    ListKept(fs.code, fs1.code, fs.here);
    PatchToHereOK(fs1, close, P + SetOf(keep + l));
    var fs2 := PatchToHere(fs1, close);
    assert forall j :: j in keep + l ==> j in P + SetOf(keep + l);
    ListKept(fs1.code, fs2.code, keep + l);
  }

  lemma GoIfTrueOK(fs: FS, e: Desc, P: set<int>)
    requires WFD(fs, e, P) && Unplaced(fs, e)
    ensures var (fs', e') := GoIfTrue(fs, e);
            NewList(fs, fs', e'.f, P)
  {
    var d := DischargeVars(e);
    JumpOutOK(fs, d, false, P);
    var (fs1, l) := JumpIfFalse(fs, d);
    FrameKeeps(fs, fs1, d, P);
    assert Pending(d, P) + SetOf(l) == P + SetOf(d.f) + SetOf(d.t) + SetOf(l);
    JoinListsOK(fs1, d.f, l, d.t, P);
  }

  lemma GoIfFalseOK(fs: FS, e: Desc, P: set<int>)
    requires WFD(fs, e, P) && Unplaced(fs, e)
    ensures var (fs', e') := GoIfFalse(fs, e);
            NewList(fs, fs', e'.t, P)
  {
    var d := DischargeVars(e);
    JumpOutOK(fs, d, true, P);
    var (fs1, l) := JumpIfTrue(fs, d);
    FrameKeeps(fs, fs1, d, P);
    assert Pending(d, P) + SetOf(l) == P + SetOf(d.t) + SetOf(d.f) + SetOf(l);
    JoinListsOK(fs1, d.t, l, d.f, P);
  }

  lemma NegateValueOK(fs: FS, e: Desc, P: set<int>)
    requires WFD(fs, e, P) && !e.k.VLocal? && Unplaced(fs, e)
    ensures var (fs', k) := NegateValue(fs, e);
            WFD(fs', e.(k := k), P) && Frame(fs, fs', Pending(e, P)) && fs'.freereg == fs.freereg
            && Unplaced(fs', e.(k := k))
  {
    var Q := Pending(e, P);
    var fs' := NegateValue(fs, e).0;
    if e.k.VReloc? || e.k.VNonReloc? {
      DischargeToAnyRegOK(fs, e, Q);
      var (fs1, e1) := DischargeToAnyReg(fs, e);
      EmitOK(FreeExp(fs1, e1), Not(0, e1.k.reg), Q);
    }
    FrameKeeps(fs, fs', e, P);
  }

  lemma DropOK(fs: FS, e: Desc, L: seq<int>, P: set<int>)
    requires WFD(fs, e, P)
    ensures WFD(fs.(code := DropValues(fs.code, L)), e, P)
    ensures Frame(fs, fs.(code := DropValues(fs.code, L)), Pending(e, P))
  {
    var fs' := fs.(code := DropValues(fs.code, L));
    assert forall i :: 0 <= i < |fs.code| ==> fs'.code[i] == fs.code[i] || (fs.code[i].TestSet? && fs'.code[i].Test?);
    FrameKeeps(fs, fs', e, P);
    ListKept(fs.code, fs'.code, fs.here);
    TestsKept(fs.code, fs'.code);
  }

  lemma NegateKind(fs: FS, e: Desc)
    ensures !NegateValue(fs, e).1.VK?
  {
  }

  lemma CodeNotOK(fs: FS, e: Desc, P: set<int>)
    requires WFD(fs, e, P) && Unplaced(fs, e)
    ensures var (fs', e') := CodeNot(fs, e);
            WFD(fs', e', P) && Frame(fs, fs', P) && fs'.freereg == fs.freereg && Unplaced(fs', e') && !e'.k.VK?
  {
    NegateKind(fs, DischargeVars(e));
    hide ListOK, ConstantsOK, TestsOK, DropValues, NegateValue;
    var d := DischargeVars(e);
    NegateValueOK(fs, d, P);
    var (fs1, k) := NegateValue(fs, d);
    DropOK(fs1, d.(k := k), d.t, P);
    var fs2 := fs1.(code := DropValues(fs1.code, d.t));
    DropOK(fs2, d.(k := k), d.f, P);
    assert Pending(Desc(k, e.f, e.t), P) == Pending(d.(k := k), P);
  }

  lemma Exp2RKDone(fs: FS, e: Desc)
    requires e.k.VNonReloc? || (e.k.VK? && e.k.i <= MAXINDEXRK)
    requires e.t == [] && e.f == []
    ensures Exp2RK(fs, e) == (fs, e)
  {
  }

  lemma CodeCompOK(fs: FS, op: BinCmp, e1: Desc, e2: Desc, P: set<int>)
    requires WFD(fs, e1, P) && WFD(fs, e2, P) && Unplaced(fs, e2)
    requires (e1.k.VNonReloc? || e1.k.VK?) && e1.t == [] && e1.f == []
    requires e1.k.VK? ==> e1.k.i <= MAXINDEXRK
    ensures var (fs', e') := CodeComp(fs, op, e1, e2);
            && WFD(fs', e', P) && Frame(fs, fs', P) && e'.t == [] && e'.f == [] && e'.k.VJmp?
            && fs'.freereg == if e1.k.VNonReloc? && e1.k.reg >= fs.nactvar then fs.freereg - 1 else fs.freereg
  {
    hide Exp2RK, CondJump, ListOK;
    Exp2RKDone(fs, e1);
    Exp2RKOK(fs, e2, P);
    var (fs2, d2) := Exp2RK(fs, e2);
    assert e1.k.VNonReloc? && e1.k.reg >= fs.nactvar ==> fs.freereg - 1 >= fs.nactvar;
    CompEndOK(fs2, CompInstr(op, OperandOf(e1), OperandOf(d2)), e1, d2, P);
  }

  lemma CompEndOK(fs: FS, i: Instr, e1: Desc, e2: Desc, P: set<int>)
    requires WFD(fs, e2, P) && i.Comp?
    requires e1.k.VNonReloc? && e1.k.reg >= fs.nactvar ==>
               fs.freereg - 1 > fs.nactvar || (fs.freereg - 1 == fs.nactvar
                   && !(e2.k.VNonReloc? && e2.k.reg >= fs.nactvar))
    requires e2.k.VNonReloc? && e2.k.reg >= fs.nactvar ==> fs.freereg > fs.nactvar
    ensures var (fs', l) := CondJump(FreeExp(FreeExp(fs, e2), e1), i);
            && WFD(fs', Desc(VJmp(l[0]), [], []), P) && Frame(fs, fs', P)
            && fs'.freereg == FreeExp(FreeExp(fs, e2), e1).freereg
  {
    var fs3 := FreeExp(FreeExp(fs, e2), e1);
    assert fs3 == fs.(freereg := fs3.freereg);
    assert forall j :: j in P ==> j in Pending(e2, P);
    assert WF(fs3, P);
    CondJumpOK(fs3, i, P);
    assert Pending(Desc(VJmp(|fs.code| + 1), [], []), P) == P;
  }

  lemma {:induction false} CompileOK(fs: FS, e: Expr, P: set<int>)
    requires WF(fs, P) && Scoped(e, fs.nactvar)
    ensures var (fs', d) := Compile(fs, e);
            WFD(fs', d, P) && Frame(fs, fs', P) && fs'.freereg == fs.freereg && Unplaced(fs', d) && !d.k.VK?
    decreases e, 1
  {
    hide CodeNot, CodeComp, Exp2RK, ListOK, ConstantsOK;
    EmptyListOK(fs.code);
    match e
    case ENil => case ETrue => case EFalse => case ENum(n) => case ELocal(x) =>
    case ENot(a) =>
      CompileOK(fs, a, P);
      var (fs1, d) := Compile(fs, a);
      CodeNotOK(fs1, d, P);
    case EAnd(a, b) => CompileLogicOK(fs, e, P);
    case EOr(a, b) => CompileLogicOK(fs, e, P);
    case ECmp(_, _, _) => CompileCompOK(fs, e, P);
  }

  lemma {:induction false} CompileCompOK(fs: FS, e: Expr, P: set<int>)
    requires WF(fs, P) && Scoped(e, fs.nactvar) && e.ECmp?
    ensures var (fs', d) := Compile(fs, e);
            WFD(fs', d, P) && Frame(fs, fs', P) && fs'.freereg == fs.freereg && Unplaced(fs', d) && !d.k.VK?
    decreases e, 0
  {
    hide CodeComp, Exp2RK, ListOK, ConstantsOK, TestsOK;
    CompileOK(fs, e.a, P);
    var (fs1, d1) := Compile(fs, e.a);
    Exp2RKOK(fs1, d1, P);
    var (fs2, d2) := Exp2RK(fs1, d1);
    CompileOK(fs2, e.b, P);
    var (fs3, d3) := Compile(fs2, e.b);
    EmptyListOK(fs3.code);
    CodeCompOK(fs3, e.op, d2, d3, P);
  }

  lemma {:induction false} CompileLogicOK(fs: FS, e: Expr, P: set<int>)
    requires WF(fs, P) && Scoped(e, fs.nactvar) && (e.EAnd? || e.EOr?)
    ensures var (fs', d) := Compile(fs, e);
            WFD(fs', d, P) && Frame(fs, fs', P) && fs'.freereg == fs.freereg && Unplaced(fs', d) && !d.k.VK?
    decreases e, 0
  {
    hide GoIfTrue, GoIfFalse, ListOK, WF, WFD, Link, Compile;
    LogicIs(fs, e);
    CompileOK(fs, e.a, P);
    var (fs1, d1) := Compile(fs, e.a);
    if e.EAnd? { GoIfTrueOK(fs1, d1, P); } else { GoIfFalseOK(fs1, d1, P); }
    var (fs2, d2) := if e.EAnd? then GoIfTrue(fs1, d1) else GoIfFalse(fs1, d1);
    var l := if e.EAnd? then d2.f else d2.t;
    WFLess(fs2, P, SetOf(l));
    CompileOK(fs2, e.b, P + SetOf(l));
    var (fs3, d3) := Compile(fs2, e.b);
    RightOperandOK(fs, fs2, fs3, d3, e.EAnd?, l, P);
  }

  lemma LogicIs(fs: FS, e: Expr)
    requires e.EAnd? || e.EOr?
    ensures var (fs1, d1) := Compile(fs, e.a);
            var (fs2, d2) := if e.EAnd? then GoIfTrue(fs1, d1) else GoIfFalse(fs1, d1);
            var l := if e.EAnd? then d2.f else d2.t;
            var (fs3, d3) := Compile(fs2, e.b);
            Compile(fs, e) == (Joined(fs3, if e.EAnd? then d3.f else d3.t, l), JoinedDesc(d3, e.EAnd?, l))
  {
  }

  lemma WFLess(fs: FS, P: set<int>, Q: set<int>)
    requires WF(fs, P + Q)
    ensures WF(fs, P)
  {
    hide TestsOK, ListOK, ConstantsOK;
  }

  lemma RightOperandOK(fs: FS, fs1: FS, fs2: FS, d: Desc, toF: bool, l: seq<int>, P: set<int>)
    requires WF(fs, P) && Frame(fs, fs1, P) && Frame(fs1, fs2, P + SetOf(l)) && WF(fs1, P)
    requires WFD(fs2, d, P + SetOf(l)) && Unplaced(fs2, d)
    requires ListOK(fs1.code, l) && SetOf(l) !! P
    ensures var fs3 := Joined(fs2, if toF then d.f else d.t, l);
            WFD(fs3, JoinedDesc(d, toF, l), P) && Frame(fs, fs3, P) && Unplaced(fs3, JoinedDesc(d, toF, l))
  {
    assert forall j :: j in l ==> j in P + SetOf(l);
    ListKept(fs1.code, fs2.code, l);
    JoinDescOK(fs2, d, toF, l, P);
    assert forall j :: j in P ==> j in P + SetOf(l);
  }

  /** luaK_posfix for `and` and `or`: the left operand's list is appended to
      the right operand's. */
  function Joined(fs: FS, keep: seq<int>, l: seq<int>): FS {
    fs.(code := Link(fs.code, keep, l))
  }

  function JoinedDesc(d: Desc, toF: bool, l: seq<int>): Desc {
    var k := DischargeVars(d).k;
    if toF then Desc(k, d.t, d.f + l) else Desc(k, d.t + l, d.f)
  }

  lemma JoinDescOK(fs: FS, d: Desc, toF: bool, l: seq<int>, P: set<int>)
    requires WFD(fs, d, P + SetOf(l)) && ListOK(fs.code, l) && SetOf(l) !! P && Unplaced(fs, d)
    ensures var fs1 := Joined(fs, if toF then d.f else d.t, l);
            && Frame(fs, fs1, P)
            && WFD(fs1, JoinedDesc(d, toF, l), P)
  {
    hide ConstantsOK, TestsOK;
    var keep, other := if toF then d.f else d.t, if toF then d.t else d.f;
    assert SetOf(keep) !! SetOf(l);
    LinkOK(fs.code, keep, l);
    TestsKept(fs.code, Link(fs.code, keep, l));
    var Q := Pending(d, P + SetOf(l));
    forall j | j in keep ensures j !in P && j !in fs.here && j !in other {
      assert j in SetOf(keep) && j in Q && j !in SetOf(other);
    }
    var fs1 := Joined(fs, keep, l);
    ListKept(fs.code, fs1.code, other);
    ListKept(fs.code, fs1.code, fs.here);
    var d1 := JoinedDesc(d, toF, l);
    assert Pending(d1, P) == Q;
    assert KindOK(fs1, d1, P) by { assert forall j :: j in keep + l ==> j in Q; }
  }
}
