/** The code generator as lcode.c runs it: one object whose code, pending
    list and registers are changed in place, with jump lists that exist only
    as offsets inside unpatched jumps. Every method is proved to do what the
    function of module CodeGen does. The ghost sequences name the jumps that
    a list head leads to. */
module FuncStates {
  import opened LuaValue
  import opened Bytecode
  import opened Expr
  import opened CodeGen
  import opened CodeGenStatic

  /** The head of a list: its first jump, or NO_JUMP. */
  function Head(L: seq<int>): int {
    if L == [] then NO_JUMP else L[0]
  }

  /** expdesc: the lists are positions of jumps. */
  datatype ExpDesc = ExpDesc(k: Kind, t: int, f: int)

  predicate Describes(e: ExpDesc, d: Desc) {
    e == ExpDesc(d.k, Head(d.t), Head(d.f))
  }

  /** getjump: the next jump of a list. */
  function GetJump(code: seq<Instr>, pc: int): int
    requires 0 <= pc < |code| && code[pc].Jmp?
  {
    if code[pc].sbx == NO_JUMP then NO_JUMP else pc + 1 + code[pc].sbx
  }

  lemma NextJump(code: seq<Instr>, L: seq<int>, n: int)
    requires ListOK(code, L) && 0 <= n < |L|
    ensures 0 <= L[n] < |code| && code[L[n]].Jmp?
    ensures GetJump(code, L[n]) == if n + 1 < |L| then L[n + 1] else NO_JUMP
  {
    assert LinkedAt(code, L, n);
    if n + 1 < |L| { assert L[n] != L[n + 1]; }
  }

  lemma HeadNone(code: seq<Instr>, L: seq<int>)
    requires ListOK(code, L)
    ensures Head(L) == NO_JUMP <==> L == []
    ensures forall n :: 0 <= n < |L| ==> L[n] != NO_JUMP
  {
    assert forall n :: 0 <= n < |L| ==> L[n] in L;
  }

  lemma HeadsEqual(code: seq<Instr>, T: seq<int>, F: seq<int>)
    requires ListOK(code, T) && ListOK(code, F) && SetOf(T) !! SetOf(F)
    ensures Head(T) == Head(F) <==> T == [] && F == []
  {
    HeadNone(code, T);
    HeadNone(code, F);
    if T != [] { assert T[0] in SetOf(T) && T[0] !in SetOf(F); }
  }

  class FuncState {
    var code: seq<Instr>
    var k: seq<Value>
    var kindex: map<Value, int>
    var jpc: int
    var lasttarget: int
    var freereg: int
    var nactvar: int
    ghost var here: seq<int>

    ghost function State(): FS
      reads this
    {
      FS(code, k, kindex, here, lasttarget, freereg, nactvar)
    }

    ghost predicate Valid(P: set<int>)
      reads this
    {
      WF(State(), P) && jpc == Head(here)
    }

    /** open_func */
    constructor (n: nat)
      ensures State() == FS([], [], map[], [], -1, n, n) && Valid({})
    {
      code, k, kindex := [], [], map[];
      jpc, here := NO_JUMP, [];
      lasttarget, freereg, nactvar := -1, n, n;
    }

    // -------------------------------------------------------------------
    // Jump lists

    method FixJump(pc: int, dest: int)
      requires 0 <= pc < |code| && code[pc].Jmp?
      modifies this`code
      ensures code == old(code)[pc := Jmp(dest - (pc + 1))]
    {
      code := code[pc := Jmp(dest - (pc + 1))];
    }

    /** luaK_concat walks to the end of l1 and links l2 there. */
    method Concat(l1: int, l2: int, ghost L1: seq<int>, ghost L2: seq<int>) returns (l: int)
      requires ListOK(code, L1) && ListOK(code, L2) && l1 == Head(L1) && l2 == Head(L2)
      modifies this`code
      ensures code == Link(old(code), L1, L2) && l == Head(L1 + L2)
    {
      HeadNone(code, L1);
      HeadNone(code, L2);
      if l2 == NO_JUMP {
        assert L1 + L2 == L1;
        return l1;
      } else if l1 == NO_JUMP {
        assert L1 + L2 == L2;
        return l2;
      }
      l := l1;
      var list := l1;
      ghost var n := 0;
      NextJump(code, L1, 0);
      var next := GetJump(code, list);
      while next != NO_JUMP
        invariant 0 <= n < |L1| && list == L1[n] && code == old(code)
        invariant 0 <= list < |code| && code[list].Jmp?
        invariant next == GetJump(code, list)
        decreases |L1| - n
      {
        NextJump(code, L1, n);
        list := next;
        n := n + 1;
        NextJump(code, L1, n);
        next := GetJump(code, list);
      }
      NextJump(code, L1, n);
      HeadNone(code, L1);
      assert n == |L1| - 1;
      FixJump(list, l2);
    }

    /** need_value */
    method AnyNeedsValue(list: int, ghost L: seq<int>) returns (b: bool)
      requires ListOK(code, L) && list == Head(L)
      ensures b == NeedValue(code, L)
    {
      HeadNone(code, L);
      var l := list;
      ghost var n := 0;
      while l != NO_JUMP
        invariant 0 <= n <= |L| && l == (if n < |L| then L[n] else NO_JUMP)
        invariant forall m :: 0 <= m < n ==> 0 <= L[m] < |code| && Carries(code, L[m])
        decreases |L| - n
      {
        NextJump(code, L, n);
        if !Carries(code, l) {
          assert L[n] in L;
          return true;
        }
        l := GetJump(code, l);
        n := n + 1;
      }
      assert n == |L|;
      return false;
    }

    /** patchtestreg on the jump at node. */
    method PatchTestReg(node: int, reg: int) returns (b: bool)
      requires 0 <= node < |code| && code[node].Jmp?
      modifies this`code
      ensures b == Carries(old(code), node)
      ensures code == if b then old(code)[node - 1 := PatchTest(old(code)[node - 1], reg)] else old(code)
    {
      if node >= 1 && code[node - 1].TestSet? {
        code := code[node - 1 := PatchTest(code[node - 1], reg)];
        return true;
      }
      return false;
    }

    /** One more jump patched. */
    lemma PatchMore(c: seq<Instr>, L: seq<int>, n: int, vtarget: int, reg: int, dtarget: int)
      requires ListOK(c, L) && 0 <= n < |L|
      ensures var c1 := Patch(c, L[..n], vtarget, reg, dtarget);
              var j := L[n];
              && 0 <= j < |c| && c1[j] == c[j] && Carries(c1, j) == Carries(c, j)
              && var c2 := if Carries(c1, j) then c1[j - 1 := PatchTest(c1[j - 1], reg)] else c1;
                 c2[j := Jmp((if Carries(c, j) then vtarget else dtarget) - (j + 1))]
                 == Patch(c, L[..n + 1], vtarget, reg, dtarget)
    {
      var j := L[n];
      assert L[n] in L;
      assert L[..n + 1] == L[..n] + [j];
      assert j !in L[..n];
      assert forall i :: i in L[..n] ==> i in L;
    }

    /** patchlistaux reads each link before it overwrites it. */
    method PatchListAux(list: int, vtarget: int, reg: int, dtarget: int, ghost L: seq<int>)
      requires ListOK(code, L) && list == Head(L)
      modifies this`code
      ensures code == Patch(old(code), L, vtarget, reg, dtarget)
    {
      HeadNone(code, L);
      var l := list;
      ghost var n := 0;
      assert Patch(code, L[..0], vtarget, reg, dtarget) == code;
      while l != NO_JUMP
        invariant 0 <= n <= |L| && l == (if n < |L| then L[n] else NO_JUMP)
        invariant code == Patch(old(code), L[..n], vtarget, reg, dtarget)
        decreases |L| - n
      {
        PatchMore(old(code), L, n, vtarget, reg, dtarget);
        NextJump(old(code), L, n);
        var next := GetJump(code, l);
        var b := PatchTestReg(l, reg);
        if b { FixJump(l, vtarget); } else { FixJump(l, dtarget); }
        l := next;
        n := n + 1;
      }
      assert n == |L|;
      assert L[..n] == L;
    }

    /** removevalues */
    method RemoveValues(list: int, ghost L: seq<int>)
      requires ListOK(code, L) && list == Head(L)
      modifies this`code
      ensures code == DropValues(old(code), L)
    {
      HeadNone(code, L);
      var l := list;
      ghost var n := 0;
      assert DropValues(code, L[..0]) == code;
      while l != NO_JUMP
        invariant 0 <= n <= |L| && l == (if n < |L| then L[n] else NO_JUMP)
        invariant code == DropValues(old(code), L[..n])
        decreases |L| - n
      {
        NextJump(old(code), L, n);
        assert L[..n + 1] == L[..n] + [l] && l !in L[..n];
        var next := GetJump(code, l);
        var _ := PatchTestReg(l, NO_REG);
        assert code == DropValues(old(code), L[..n + 1]);
        l := next;
        n := n + 1;
      }
      assert n == |L|;
      assert L[..n] == L;
    }
  
    // -------------------------------------------------------------------
    // Emission

    method DischargeJpc(ghost P: set<int>)
      requires Valid(P)
      modifies this`code, this`jpc, this`here
      ensures State() == old(State()).(code := Patch(old(code), old(here), |old(code)|, NO_REG, |old(code)|),
                here := [])
      ensures jpc == NO_JUMP
    {
      PatchListAux(jpc, |code|, NO_REG, |code|, here);
      jpc, here := NO_JUMP, [];
    }

    /** luaK_code */
    method Code(i: Instr, ghost P: set<int>)
      requires Valid(P)
      modifies this`code, this`jpc, this`here
      ensures State() == Emit(old(State()), i) && jpc == NO_JUMP
      ensures !IsTest(i) ==> Valid(P)
    {
      if !IsTest(i) { EmitOK(State(), i, P); }
      DischargeJpc(P);
      code := code + [i];
    }

    /** luaK_jump, also right after a test has been emitted. */
    method EmitJump(ghost P: set<int>) returns (j: int)
      requires ListOK(code, here) && jpc == Head(here)
      modifies this`code, this`jpc, this`here
      ensures State() == Jump(old(State())).0 && jpc == NO_JUMP
      ensures j == Head(Jump(old(State())).1)
    {
      var old_jpc := jpc;
      ghost var L := here;
      j := |code|;
      ListKept(code, code + [Jmp(NO_JUMP)], L);
      code := code + [Jmp(NO_JUMP)];
      jpc, here := NO_JUMP, [];
      assert LinkedAt(code, [j], 0);
      j := Concat(j, old_jpc, [j], L);
    }

    method EmitCondJump(i: Instr, ghost P: set<int>) returns (j: int)
      requires Valid(P) && IsTest(i)
      modifies this`code, this`jpc, this`here
      ensures State() == CondJump(old(State()), i).0 && jpc == NO_JUMP && here == []
      ensures j == Head(CondJump(old(State()), i).1)
    {
      Code(i, P);
      j := EmitJump(P);
    }

    method Label()
      modifies this`lasttarget
      ensures State() == GetLabel(old(State()))
    {
      lasttarget := |code|;
    }

    /** luaK_patchtohere */
    method PatchHere(list: int, ghost L: seq<int>, ghost P: set<int>)
      requires Valid(P + SetOf(L)) && ListOK(code, L) && SetOf(L) !! P && list == Head(L)
      modifies this`code, this`jpc, this`here, this`lasttarget
      ensures State() == PatchToHere(old(State()), L) && Valid(P)
    {
      PatchToHereOK(State(), L, P);
      Label();
      jpc := Concat(jpc, list, here, L);
      here := here + L;
    }

    /** luaK_nil */
    method LoadNils(from: int, n: int, ghost P: set<int>)
      requires Valid(P)
      modifies this`code, this`jpc, this`here
      ensures State() == EmitNil(old(State()), from, n)
      ensures n == 1 ==> Valid(P)
    {
      if n == 1 { EmitNilOK(State(), from, P); }
      if |code| > lasttarget {
        if |code| == 0 {
          if from >= nactvar { return; }
        } else {
          var p := code[|code| - 1];
          if p.LoadNil? && p.a <= from <= p.b + 1 {
            if from + n - 1 > p.b {
              code := code[|code| - 1 := LoadNil(p.a, from + n - 1)];
            }
            return;
          }
        }
      }
      Code(LoadNil(from, from + n - 1), P);
    }

    /** addk */
    method AddConstant(v: Value, ghost P: set<int>) returns (i: int)
      requires Valid(P)
      modifies this`k, this`kindex
      ensures State() == AddK(old(State()), v).0 && i == AddK(old(State()), v).1 && Valid(P)
    {
      AddKOK(State(), v, P);
      if v in kindex { return kindex[v]; }
      i := |k|;
      kindex := kindex[v := i];
      k := k + [v];
    }

    method ReserveRegs(n: int)
      modifies this`freereg
      ensures State() == Reserve(old(State()), n)
    {
      freereg := freereg + n;
    }

    method FreeExpReg(e: ExpDesc, ghost d: Desc)
      requires Describes(e, d)
      modifies this`freereg
      ensures State() == FreeExp(old(State()), d)
    {
      if e.k.VNonReloc? && e.k.reg >= nactvar { freereg := freereg - 1; }
    }

    // -------------------------------------------------------------------
    // Descriptors

    method Discharge2Reg(e0: ExpDesc, reg: int, ghost d: Desc, ghost P: set<int>) returns (e: ExpDesc)
      requires Valid(Pending(d, P)) && WFD(State(), d, P) && Describes(e0, d)
      modifies this
      ensures State() == DischargeToReg(old(State()), d, reg).0 && jpc == Head(here)
      ensures Describes(e, DischargeToReg(old(State()), d, reg).1)
    {
      ghost var Q := Pending(d, P);
      e := if e0.k.VLocal? then e0.(k := VNonReloc(e0.k.reg)) else e0;
      match e.k {
        case VNil => LoadNils(reg, 1, Q);
        case VFalse => Code(LoadBool(reg, false, false), Q);
        case VTrue => Code(LoadBool(reg, true, false), Q);
        case VK(i) => Code(LoadK(reg, i), Q);
        case VKNum(n) =>
          var i := AddConstant(Number(Fin(n)), Q);
          Code(LoadK(reg, i), Q);
        case VReloc(pc) => code := SetArgA(code, pc, reg);
        case VNonReloc(r) => if reg != r { Code(Move(reg, r), Q); }
        case _ => return;
      }
      e := e.(k := VNonReloc(reg));
    }

    /** discharge2anyreg */
    method Discharge2AnyReg(e0: ExpDesc, ghost d: Desc, ghost P: set<int>) returns (e: ExpDesc)
      requires Valid(Pending(d, P)) && WFD(State(), d, P) && Describes(e0, d)
      requires Unplaced(State(), d)
      modifies this
      ensures State() == DischargeToAnyReg(old(State()), d).0 && jpc == Head(here)
      ensures Describes(e, DischargeToAnyReg(old(State()), d).1)
    {
      e := e0;
      if !e.k.VNonReloc? {
        ReserveRegs(1);
        e := Discharge2Reg(e, freereg - 1, d, P);
      }
    }

    /** exp2reg */
    method ToReg(e0: ExpDesc, reg: int, ghost d: Desc, ghost P: set<int>) returns (e: ExpDesc)
      requires Valid(Pending(d, P)) && WFD(State(), d, P) && Describes(e0, d)
      modifies this
      ensures State() == Exp2Reg(old(State()), d, reg).0 && Valid(P)
      ensures Describes(e, Exp2Reg(old(State()), d, reg).1)
    {
      hide ListOK, TestsOK, ConstantsOK, CloseLists;
      ghost var fs := State();
      Exp2RegOK(fs, d, reg, P);
      DischargeToRegOK(fs, d, reg, P);
      e := Discharge2Reg(e0, reg, d, P);
      if e.k.VJmp? {
        LinkJmpOK(fs, d, P);
        var t := Concat(e.t, e.k.pc, d.t, [e.k.pc]);
        CloseBoth(t, e.f, true, reg, d.t + [d.k.pc], d.f, P);
      } else {
        CloseBoth(e.t, e.f, false, reg, d.t, d.f, P);
      }
      e := ExpDesc(VNonReloc(reg), NO_JUMP, NO_JUMP);
    }

    /** The part of exp2reg that closes the two lists. */
    method CloseBoth(t: int, f: int, isJmp: bool, reg: int, ghost T: seq<int>, ghost F: seq<int>, ghost P: set<int>)
      requires Valid(P + SetOf(T) + SetOf(F)) && ListOK(code, T) && ListOK(code, F)
      requires SetOf(T) !! P && SetOf(F) !! P && SetOf(T) !! SetOf(F)
      requires t == Head(T) && f == Head(F)
      modifies this
      ensures State() == CloseLists(old(State()), isJmp, T, F, reg) && Valid(P)
    {
      hide ConstantsOK, TestsOK, ListOK, NeedValue, SkipBools, LoadBools, PatchLists, PatchToHere;
      ghost var fs, Q := State(), P + SetOf(T) + SetOf(F);
      CloseListsOK(fs, isJmp, T, F, reg, P);
      HeadsEqual(code, T, F);
      if t != f {
        var pf, pt := NO_JUMP, NO_JUMP;
        var b1 := AnyNeedsValue(t, T);
        var b2 := AnyNeedsValue(f, F);
        if b1 || b2 {
          pf, pt := EmitBools(isJmp, reg, Q);
        }
        Label();
        assert forall j :: j in T || j in F ==> j in Q;
        ListKept(fs.code, code, T);
        ListKept(fs.code, code, F);
        PatchBoth(t, f, reg, pf, pt, T, F);
      }
    }

    method PatchBoth(t: int, f: int, reg: int, pf: int, pt: int, ghost T: seq<int>, ghost F: seq<int>)
      requires ListOK(code, T) && ListOK(code, F) && SetOf(T) !! SetOf(F) && t == Head(T) && f == Head(F)
      modifies this`code
      ensures State() == PatchLists(old(State()), T, F, reg, pf, pt)
    {
      ghost var c := code;
      PatchListAux(f, |code|, reg, pf, F);
      forall j | j in T ensures 0 <= j < |c| && code[j] == c[j] { assert j in SetOf(T) && j !in SetOf(F); }
      ListKept(c, code, T);
      PatchListAux(t, |code|, reg, pt, T);
    }

    method EmitBools(isJmp: bool, reg: int, ghost Q: set<int>) returns (pf: int, pt: int)
      requires Valid(Q)
      modifies this
      ensures var (fs1, J) := SkipBools(old(State()), isJmp);
              && State() == PatchToHere(LoadBools(fs1, reg), J)
              && pf == |fs1.code| && pt == pf + 1
      ensures Valid(Q) && Frame(old(State()), State(), Q)
    {
      hide ConstantsOK, TestsOK, ListOK, Link;
      ghost var fs := State();
      var fj := NO_JUMP;
      SkipBoolsOK(fs, isJmp, Q);
      if !isJmp { fj := EmitJump(Q); }
      ghost var (fs1, J) := SkipBools(fs, isJmp);
      assert fj == Head(J) && State() == fs1;
      LoadBoolsOK(fs1, reg, Q + SetOf(J));
      Label();
      pf := |code|;
      Code(LoadBool(reg, false, true), Q + SetOf(J));
      Label();
      pt := |code|;
      Code(LoadBool(reg, true, false), Q + SetOf(J));
      assert forall j :: j in J ==> j in Q + SetOf(J);
      ListKept(fs1.code, code, J);
      PatchToHereOK(State(), J, Q);
      PatchHere(fj, J, Q);
    }
  
    method ToNextReg(e0: ExpDesc, ghost d: Desc, ghost P: set<int>) returns (e: ExpDesc)
      requires Valid(Pending(d, P)) && WFD(State(), d, P) && Describes(e0, d) && Unplaced(State(), d)
      modifies this
      ensures State() == Exp2NextReg(old(State()), d).0 && Valid(P)
      ensures Describes(e, Exp2NextReg(old(State()), d).1)
    {
      hide ConstantsOK, TestsOK, ListOK, Exp2Reg;
      e := if e0.k.VLocal? then e0.(k := VNonReloc(e0.k.reg)) else e0;
      ghost var d1 := DischargeVars(d);
      FreeExpReg(e, d1);
      ReserveRegs(1);
      e := ToReg(e, freereg - 1, d1, P);
    }

    method ToAnyReg(e0: ExpDesc, ghost d: Desc, ghost P: set<int>) returns (e: ExpDesc)
      requires Valid(Pending(d, P)) && WFD(State(), d, P) && Describes(e0, d)
      modifies this
      ensures State() == Exp2AnyReg(old(State()), d).0 && Valid(P)
      ensures Describes(e, Exp2AnyReg(old(State()), d).1)
    {
      hide ConstantsOK, TestsOK, Exp2NextReg, Exp2Reg, ListOK;
      HeadsEqual(code, d.t, d.f);
      e := if e0.k.VLocal? then e0.(k := VNonReloc(e0.k.reg)) else e0;
      if e.k.VNonReloc? {
        if e.t == e.f {
          assert Pending(d, P) == P;
          return;
        }
        if e.k.reg >= nactvar {
          e := ToReg(e, e.k.reg, DischargeVars(d), P);
          return;
        }
      }
      NextRegVars(State(), d);
      e := ToNextReg(e0, d, P);
    }

    lemma NextRegVars(fs: FS, d: Desc)
      ensures Exp2NextReg(fs, DischargeVars(d)) == Exp2NextReg(fs, d)
    {
    }

    /** luaK_exp2val */
    method ToVal(e0: ExpDesc, ghost d: Desc, ghost P: set<int>) returns (e: ExpDesc)
      requires Valid(Pending(d, P)) && WFD(State(), d, P) && Describes(e0, d)
      requires Unplaced(State(), d) || !HasJumps(d)
      modifies this
      ensures State() == Exp2Val(old(State()), d).0 && Valid(P)
      ensures Describes(e, Exp2Val(old(State()), d).1)
    {
      hide ConstantsOK, TestsOK, Exp2AnyReg, ListOK;
      HeadsEqual(code, d.t, d.f);
      if e0.t != e0.f {
        e := ToAnyReg(e0, d, P);
      } else {
        assert Pending(d, P) == P;
        e := if e0.k.VLocal? then e0.(k := VNonReloc(e0.k.reg)) else e0;
      }
    }

    /** luaK_exp2RK: the operand is read off the descriptor. */
    method ToRK(e0: ExpDesc, ghost d: Desc, ghost P: set<int>) returns (e: ExpDesc)
      requires Valid(Pending(d, P)) && WFD(State(), d, P) && Describes(e0, d)
      requires Unplaced(State(), d) || !HasJumps(d)
      modifies this
      ensures State() == Exp2RK(old(State()), d).0 && Valid(P)
      ensures Describes(e, Exp2RK(old(State()), d).1)
    {
      hide ConstantsOK, TestsOK, Exp2AnyReg, ListOK;
      ghost var fs := State();
      if HasJumps(d) { Exp2AnyRegOK(fs, d, P); }
      ghost var d1 := Exp2Val(fs, d).1;
      e := ToVal(e0, d, P);
      assert Pending(d1, P) == P;
      if IsConst(e.k) && |k| <= MAXINDEXRK {
        var i := AddConstant(ConstValue(e.k), P);
        e := e.(k := VK(i));
      } else if e.k.VK? && e.k.i <= MAXINDEXRK {
      } else {
        e := ToAnyReg(e, d1, P);
      }
    }

    // -------------------------------------------------------------------
    // Conditions

    method JumpOn(e: ExpDesc, cond: bool, ghost d: Desc, ghost P: set<int>) returns (j: int)
      requires Valid(Pending(d, P)) && WFD(State(), d, P) && Describes(e, d)
      requires !d.k.VJmp? && !d.k.VLocal? && Unplaced(State(), d)
      modifies this
      ensures State() == JumpOnCond(old(State()), d, cond).0 && jpc == Head(here)
      ensures j == Head(JumpOnCond(old(State()), d, cond).1)
    {
      hide ConstantsOK, CondJump, DischargeToAnyReg, ListOK;
      ghost var Q, fs := Pending(d, P), State();
      if e.k.VReloc? && code[e.k.pc].Not? {
        var i := code[e.k.pc];
        code := code[..|code| - 1];
        EmptyListOK(code);
        assert WF(State(), Q) by { assert TestsOK(code); }
        j := EmitCondJump(Test(i.b, !cond), Q);
      } else {
        assert KindOK(fs, d, Q);
        DischargeToAnyRegOK(fs, d, Q);
        var e1 := Discharge2AnyReg(e, d, P);
        ghost var d1 := DischargeToAnyReg(fs, d).1;
        FreeExpReg(e1, d1);
        j := EmitCondJump(TestSet(NO_REG, e1.k.reg, cond), Q);
      }
    }

    method Invert(pc: int)
      modifies this`code
      ensures code == InvertJump(old(code), pc)
    {
      if 1 <= pc <= |code| && code[pc - 1].Comp? {
        code := code[pc - 1 := code[pc - 1].(cond := !code[pc - 1].cond)];
      }
    }

    /** luaK_goiftrue (isAnd) and luaK_goiffalse: the jump out of the value. */
    method JumpOut(e: ExpDesc, isAnd: bool, ghost d: Desc, ghost P: set<int>) returns (j: int)
      requires Valid(Pending(d, P)) && WFD(State(), d, P) && Describes(e, d)
      requires !d.k.VLocal? && Unplaced(State(), d)
      modifies this
      ensures var (fs', l) := if isAnd then JumpIfFalse(old(State()), d) else JumpIfTrue(old(State()), d);
              State() == fs' && j == Head(l) && jpc == Head(here)
    {
      hide ConstantsOK, TestsOK, JumpOnCond, ListOK;
      var always := if isAnd then e.k.VK? || e.k.VKNum? || e.k.VTrue? else e.k.VNil? || e.k.VFalse?;
      var never := if isAnd then e.k.VFalse? else e.k.VTrue?;
      if always {
        j := NO_JUMP;
      } else if never {
        j := EmitJump(Pending(d, P));
      } else if e.k.VJmp? {
        if isAnd { Invert(e.k.pc); }
        j := e.k.pc;
      } else {
        j := JumpOn(e, !isAnd, d, P);
      }
    }

    /** The end of luaK_goiftrue and luaK_goiffalse. */
    method Join(keep: int, j: int, close: int, ghost K: seq<int>, ghost l: seq<int>, ghost C: seq<int>,
                ghost P: set<int>)
        returns (h: int)
      requires Valid(P + SetOf(K) + SetOf(C) + SetOf(l))
      requires ListOK(code, K) && ListOK(code, l) && ListOK(code, C) && SetOf(K) !! SetOf(C) !! SetOf(l) !! P
      requires keep == Head(K) && j == Head(l) && close == Head(C)
      modifies this
      ensures State() == JoinLists(old(State()), K, l, C) && h == Head(K + l) && Valid(P + SetOf(K + l))
    {
      hide ConstantsOK;
      ghost var fs := State();
      JoinListsOK(fs, K, l, C, P);
      LinkOK(code, K, l);
      forall i | i in K ensures i !in C && i !in fs.here {
        assert i in SetOf(K) && i !in SetOf(C) && i in P + SetOf(K) + SetOf(C) + SetOf(l);
      }
      h := Concat(keep, j, K, l);
      ListKept(fs.code, code, C);
      ListKept(fs.code, code, here);
      TestsKept(fs.code, code);
      assert (P + SetOf(K + l)) + SetOf(C) == P + SetOf(K) + SetOf(C) + SetOf(l);
      PatchHere(close, C, P + SetOf(K + l));
    }

    method GoIf(e0: ExpDesc, isAnd: bool, ghost d: Desc, ghost P: set<int>) returns (e: ExpDesc)
      requires Valid(Pending(d, P)) && WFD(State(), d, P) && Describes(e0, d) && Unplaced(State(), d)
      modifies this
      ensures var (fs', d') := if isAnd then GoIfTrue(old(State()), d) else GoIfFalse(old(State()), d);
              && State() == fs' && Describes(e, d')
              && Valid(P + SetOf(if isAnd then d'.f else d'.t))
    {
      hide ConstantsOK, TestsOK, JumpIfTrue, JumpIfFalse, ListOK, JoinLists;
      ghost var fs, d1 := State(), DischargeVars(d);
      e := if e0.k.VLocal? then e0.(k := VNonReloc(e0.k.reg)) else e0;
      JumpOutOK(fs, d1, !isAnd, P);
      var j := JumpOut(e, isAnd, d1, P);
      ghost var (fs1, l) := if isAnd then JumpIfFalse(fs, d1) else JumpIfTrue(fs, d1);
      FrameKeeps(fs, fs1, d1, P);
      if isAnd {
        assert Pending(d1, P) + SetOf(l) == P + SetOf(d1.f) + SetOf(d1.t) + SetOf(l);
        var h := Join(e.f, j, e.t, d1.f, l, d1.t, P);
        e := ExpDesc(e.k, NO_JUMP, h);
      } else {
        assert Pending(d1, P) + SetOf(l) == P + SetOf(d1.t) + SetOf(d1.f) + SetOf(l);
        var h := Join(e.t, j, e.f, d1.t, l, d1.f, P);
        e := ExpDesc(e.k, h, NO_JUMP);
      }
    }

    /** codenot */
    method Negate(e0: ExpDesc, ghost d: Desc, ghost P: set<int>) returns (e: ExpDesc)
      requires Valid(Pending(d, P)) && WFD(State(), d, P) && Describes(e0, d) && Unplaced(State(), d)
      modifies this
      ensures State() == CodeNot(old(State()), d).0 && Describes(e, CodeNot(old(State()), d).1)
      ensures Valid(Pending(CodeNot(old(State()), d).1, P))
    {
      hide ConstantsOK, TestsOK, ListOK, DropValues, NegateValue;
      ghost var fs, d1 := State(), DischargeVars(d);
      CodeNotOK(fs, d, P);
      NegateValueOK(fs, d1, P);
      e := if e0.k.VLocal? then e0.(k := VNonReloc(e0.k.reg)) else e0;
      var kind := NegateKind(e, d1, P);
      ghost var d2 := d1.(k := kind);
      DropOK(State(), d2, d1.t, P);
      RemoveValues(e.t, d1.t);
      DropOK(State(), d2, d1.f, P);
      RemoveValues(e.f, d1.f);
      e := ExpDesc(kind, e.f, e.t);
    }

    method NegateKind(e: ExpDesc, ghost d: Desc, ghost P: set<int>) returns (kind: Kind)
      requires Valid(Pending(d, P)) && WFD(State(), d, P) && Describes(e, d)
      requires !d.k.VLocal? && Unplaced(State(), d)
      modifies this
      ensures State() == NegateValue(old(State()), d).0 && kind == NegateValue(old(State()), d).1
      ensures jpc == Head(here)
    {
      hide ConstantsOK, TestsOK, ListOK, DischargeToAnyReg;
      if e.k.VNil? || e.k.VFalse? {
        kind := VTrue;
      } else if e.k.VK? || e.k.VKNum? || e.k.VTrue? {
        kind := VFalse;
      } else if e.k.VJmp? {
        Invert(e.k.pc);
        kind := e.k;
      } else {
        ghost var fs, Q := State(), Pending(d, P);
        assert KindOK(fs, d, Q);
        DischargeToAnyRegOK(fs, d, Q);
        var e1 := Discharge2AnyReg(e, d, P);
        FreeExpReg(e1, DischargeToAnyReg(fs, d).1);
        kind := VReloc(|code|);
        Code(Not(0, e1.k.reg), Q);
      }
    }

    /** codecomp */
    method Comparison(op: BinCmp, e1: ExpDesc, e2: ExpDesc, ghost d1: Desc, ghost d2: Desc, ghost P: set<int>)
        returns (e: ExpDesc)
      requires Valid(Pending(d2, P)) && WFD(State(), d1, P) && WFD(State(), d2, P) && Unplaced(State(), d2)
      requires (d1.k.VNonReloc? || (d1.k.VK? && d1.k.i <= MAXINDEXRK)) && d1.t == [] && d1.f == []
      requires Describes(e1, d1) && Describes(e2, d2)
      modifies this
      ensures State() == CodeComp(old(State()), op, d1, d2).0 && Describes(e, CodeComp(old(State()), op, d1, d2).1)
      ensures Valid(P)
    {
      hide ConstantsOK, TestsOK, ListOK, Exp2RK, CondJump, CompInstr;
      ghost var fs := State();
      CodeCompOK(fs, op, d1, d2, P);
      Exp2RKDone(fs, d1);
      Exp2RKOK(fs, d2, P);
      var r2 := ToRK(e2, d2, P);
      ghost var x2 := Exp2RK(fs, d2).1;
      FreeExpReg(r2, x2);
      FreeExpReg(e1, d1);
      var i := CompInstr(op, OperandOf(Desc(e1.k, [], [])), OperandOf(Desc(r2.k, [], [])));
      CompInstrIsTest(op, OperandOf(d1), OperandOf(x2));
      CondJumpOK(State(), i, P);
      var j := EmitCondJump(i, P);
      e := ExpDesc(VJmp(j), NO_JUMP, NO_JUMP);
      assert Pending(CodeComp(fs, op, d1, d2).1, P) == P;
    }

    lemma CompInstrIsTest(op: BinCmp, x: RK, y: RK)
      ensures IsTest(CompInstr(op, x, y))
    {
    }

    /** The calls that subexpr makes for a parse tree. */
    method CompileExpr(e: Expr, ghost P: set<int>) returns (r: ExpDesc)
      requires Valid(P) && Scoped(e, nactvar)
      modifies this
      ensures State() == Compile(old(State()), e).0 && Describes(r, Compile(old(State()), e).1)
      ensures Valid(Pending(Compile(old(State()), e).1, P))
      decreases e
    {
      hide ConstantsOK, TestsOK, ListOK, GoIfTrue, GoIfFalse, CodeNot, CodeComp, Exp2RK, WF, WFD;
      ghost var fs := State();
      CompileOK(fs, e, P);
      match e {
        case ENil => r := ExpDesc(VNil, NO_JUMP, NO_JUMP); assert Pending(Desc(VNil, [], []), P) == P;
        case ETrue => r := ExpDesc(VTrue, NO_JUMP, NO_JUMP); assert Pending(Desc(VTrue, [], []), P) == P;
        case EFalse => r := ExpDesc(VFalse, NO_JUMP, NO_JUMP); assert Pending(Desc(VFalse, [], []), P) == P;
        case ENum(n) => r := ExpDesc(VKNum(n), NO_JUMP, NO_JUMP); assert Pending(Desc(VKNum(n), [], []), P) == P;
        case ELocal(x) => r := ExpDesc(VLocal(x), NO_JUMP, NO_JUMP); assert Pending(Desc(VLocal(x), [], []), P) == P;
        case ENot(a) =>
          CompileOK(fs, a, P);
          r := CompileExpr(a, P);
          r := Negate(r, Compile(fs, a).1, P);
        case EAnd(_, _) => r := CompileLogic(e, P);
        case EOr(_, _) => r := CompileLogic(e, P);
        case ECmp(op, a, b) => r := CompileCmp(op, a, b, P);
      }
    }

    method CompileLogic(e: Expr, ghost P: set<int>) returns (r: ExpDesc)
      requires Valid(P) && Scoped(e, nactvar) && (e.EAnd? || e.EOr?)
      modifies this
      ensures State() == Compile(old(State()), e).0 && Describes(r, Compile(old(State()), e).1)
      ensures Valid(Pending(Compile(old(State()), e).1, P))
      decreases e, 0
    {
      hide WF, WFD, ListOK, GoIfTrue, GoIfFalse, SetOf, Pending, Unplaced, Compile, Joined, JoinedDesc;
      ghost var fs := State();
      LogicReady(fs, e, P);
      ghost var (fs1, d1) := Compile(fs, e.a);
      var e1 := CompileExpr(e.a, P);
      e1 := GoIf(e1, e.EAnd?, d1, P);
      ghost var (fs2, d2) := if e.EAnd? then GoIfTrue(fs1, d1) else GoIfFalse(fs1, d1);
      ghost var l := if e.EAnd? then d2.f else d2.t;
      r := CompileExpr(e.b, P + SetOf(l));
      r := JoinRight(r, if e.EAnd? then e1.f else e1.t, e.EAnd?, Compile(fs2, e.b).1, l);
    }

    /** What holds while the right operand is compiled. */
    lemma LogicReady(fs: FS, e: Expr, P: set<int>)
      requires WF(fs, P) && Scoped(e, fs.nactvar) && (e.EAnd? || e.EOr?)
      ensures var (fs1, d1) := Compile(fs, e.a);
              var (fs2, d2) := if e.EAnd? then GoIfTrue(fs1, d1) else GoIfFalse(fs1, d1);
              var l := if e.EAnd? then d2.f else d2.t;
              var (fs3, d3) := Compile(fs2, e.b);
              && WFD(fs1, d1, P) && Unplaced(fs1, d1)
              && WF(fs2, P + SetOf(l)) && Scoped(e.a, fs.nactvar) && Scoped(e.b, fs2.nactvar)
              && ListOK(fs3.code, d3.t) && ListOK(fs3.code, d3.f) && ListOK(fs3.code, l)
              && Compile(fs, e) == (Joined(fs3, if e.EAnd? then d3.f else d3.t, l), JoinedDesc(d3, e.EAnd?, l))
              && WF(Compile(fs, e).0, Pending(Compile(fs, e).1, P))
    {
      hide ConstantsOK, TestsOK, ListOK, GoIfTrue, GoIfFalse, WFD, WF, Link;
      CompileOK(fs, e, P);
      CompileOK(fs, e.a, P);
      var (fs1, d1) := Compile(fs, e.a);
      if e.EAnd? { GoIfTrueOK(fs1, d1, P); } else { GoIfFalseOK(fs1, d1, P); }
      var (fs2, d2) := if e.EAnd? then GoIfTrue(fs1, d1) else GoIfFalse(fs1, d1);
      var l := if e.EAnd? then d2.f else d2.t;
      CompileOK(fs2, e.b, P + SetOf(l));
      var (fs3, d3) := Compile(fs2, e.b);
      JoinReady(fs2, fs3, d3, l, P);
      PendingOK(Compile(fs, e).0, Compile(fs, e).1, P);
    }

    /** luaK_posfix for `and` and `or`. */
    method JoinRight(right: ExpDesc, list: int, isAnd: bool, ghost d: Desc, ghost l: seq<int>) returns (r: ExpDesc)
      requires ListOK(code, d.t) && ListOK(code, d.f) && ListOK(code, l) && Describes(right, d) && list == Head(l)
      modifies this`code
      ensures State() == Joined(old(State()), if isAnd then d.f else d.t, l) && Describes(r, JoinedDesc(d, isAnd, l))
    {
      hide ListOK, Link;
      r := right;
      if r.k.VLocal? { r := r.(k := VNonReloc(r.k.reg)); }
      if isAnd {
        var h := Concat(r.f, list, d.f, l);
        r := r.(f := h);
      } else {
        var h := Concat(r.t, list, d.t, l);
        r := r.(t := h);
      }
    }

    lemma PendingOK(fs: FS, d: Desc, P: set<int>)
      requires WFD(fs, d, P)
      ensures WF(fs, Pending(d, P))
    {
    }

    lemma JoinReady(fs: FS, fs': FS, d: Desc, l: seq<int>, P: set<int>)
      requires WF(fs, P + SetOf(l)) && Frame(fs, fs', P + SetOf(l)) && ListOK(fs.code, l) && WFD(fs', d, P + SetOf(l))
      ensures ListOK(fs'.code, d.f) && ListOK(fs'.code, d.t) && ListOK(fs'.code, l)
    {
      assert forall j :: j in l ==> j in P + SetOf(l);
      ListKept(fs.code, fs'.code, l);
    }

    /** What holds before the operands of a comparison are compared. */
    lemma CmpReady(fs: FS, op: BinCmp, a: Expr, b: Expr, P: set<int>)
      requires WF(fs, P) && Scoped(a, fs.nactvar) && Scoped(b, fs.nactvar)
      ensures var (fs1, d1) := Compile(fs, a);
              var (fs2, d2) := Exp2RK(fs1, d1);
              var (fs3, d3) := Compile(fs2, b);
              && WFD(fs1, d1, P) && Unplaced(fs1, d1)
              && fs2.nactvar == fs.nactvar && WFD(fs3, d2, P) && WFD(fs3, d3, P) && Unplaced(fs3, d3)
              && (d2.k.VNonReloc? || (d2.k.VK? && d2.k.i <= MAXINDEXRK)) && d2.t == [] && d2.f == []
              && Compile(fs, ECmp(op, a, b)) == CodeComp(fs3, op, d2, d3)
              && Pending(CodeComp(fs3, op, d2, d3).1, P) == P
    {
      hide WF, Exp2RK, CodeComp, Compile, KindOK, ListOK;
      CompileOK(fs, a, P);
      var (fs1, d1) := Compile(fs, a);
      Exp2RKOK(fs1, d1, P);
      var (fs2, d2) := Exp2RK(fs1, d1);
      assert Pending(d2, P) == P;
      CompileOK(fs2, b, P);
      var (fs3, d3) := Compile(fs2, b);
      OperandKept(fs2, fs3, d2, d3, P);
      CodeCompOK(fs3, op, d2, d3, P);
      assert Pending(CodeComp(fs3, op, d2, d3).1, P) == P;
      CmpIs(fs, op, a, b);
    }

    lemma CmpIs(fs: FS, op: BinCmp, a: Expr, b: Expr)
      ensures var (fs1, d1) := Compile(fs, a);
              var (fs2, d2) := Exp2RK(fs1, d1);
              var (fs3, d3) := Compile(fs2, b);
              Compile(fs, ECmp(op, a, b)) == CodeComp(fs3, op, d2, d3)
    {
      hide Exp2RK, CodeComp;
    }

    /** A finished operand stays valid while the other one is compiled. */
    lemma OperandKept(fs: FS, fs': FS, d: Desc, d': Desc, P: set<int>)
      requires WFD(fs, d, P) && (d.k.VNonReloc? || d.k.VK?) && d.t == [] && d.f == []
      requires WFD(fs', d', P) && Frame(fs, fs', P) && fs'.freereg == fs.freereg
      ensures WFD(fs', d, P)
    {
      hide TestsOK, ConstantsOK;
      EmptyListOK(fs'.code);
      assert Pending(d, P) == P;
      assert forall j :: j in P ==> j in Pending(d', P);
    }

    method CompileCmp(op: BinCmp, a: Expr, b: Expr, ghost P: set<int>) returns (r: ExpDesc)
      requires Valid(P) && Scoped(a, nactvar) && Scoped(b, nactvar)
      modifies this
      ensures var e := ECmp(op, a, b);
              State() == Compile(old(State()), e).0 && Describes(r, Compile(old(State()), e).1)
              && Valid(Pending(Compile(old(State()), e).1, P))
      decreases ECmp(op, a, b), 0
    {
      hide WF, WFD, Exp2RK, CodeComp, Compile, Unplaced;
      ghost var fs := State();
      CmpReady(fs, op, a, b, P);
      ghost var (fs1, d1) := Compile(fs, a);
      var e1 := CompileExpr(a, P);
      e1 := ToRK(e1, d1, P);
      ghost var (fs2, d2) := Exp2RK(fs1, d1);
      var e2 := CompileExpr(b, P);
      ghost var (fs3, d3) := Compile(fs2, b);
      r := Comparison(op, e1, e2, d2, d3, P);
    }

    /** retstat with one expression. */
    method CompileReturnStat(e: Expr)
      requires Valid({}) && Scoped(e, nactvar)
      modifies this
      ensures State() == CompileReturn(old(State()), e) && Valid({})
    {
      hide ConstantsOK, TestsOK, ListOK, Exp2AnyReg, Compile;
      ghost var fs := State();
      CompileOK(fs, e, {});
      var r := CompileExpr(e, {});
      ghost var (fs1, d) := Compile(fs, e);
      Exp2AnyRegOK(fs1, d, {});
      r := ToAnyReg(r, d, {});
      Code(Return(r.k.reg), {});
    }
  }
}
