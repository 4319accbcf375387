/** What each operation of the code generator does to runs of the code.

    A run is fixed by its start s and registers r0. Before an expression is
    compiled the run either left the code (by a jump in P, or with an error)
    or arrives at the end of it; afterwards it leaves or arrives as the
    expression's Way says. */
module CodeGenRun {
  import opened Options
  import opened LuaValue
  import opened Bytecode
  import opened CodeGen
  import opened CodeGenStatic

  predicate Agree(r: Regs, r': Regs, n: int) {
    forall i :: 0 <= i < n ==> Get(r, i) == Get(r', i)
  }

  /** The run over all the code. */
  function RunOf(fs: FS, P: set<int>, s: int, r0: Regs): Outcome {
    Exec(fs.code, fs.k, P + SetOf(fs.here), s, |fs.code|, r0)
  }

  predicate Arrived(o: Outcome, here: seq<int>) {
    o.Fall? || (o.Exit? && o.at in here)
  }

  function HeldBy(o: Outcome): Option<Value> {
    if o.Exit? then o.cv else None
  }

  /** The outcome once waiting jumps have been patched. */
  function Settled(o: Outcome, here: seq<int>): Outcome {
    if Arrived(o, here) then Fall(o.r) else o
  }

  /** luaK_nil may rely on a run passing through the last LOADNIL, and on
      clean registers at the start of a function. */
  ghost predicate NilOK(fs: FS, P: set<int>, s: int, r0: Regs) {
    && (|fs.code| > fs.lasttarget && |fs.code| > 0 && fs.code[|fs.code| - 1].LoadNil?
        && RunOf(fs, P, s, r0).Fall? ==>
          s < |fs.code| && Exec(fs.code, fs.k, P, s, |fs.code| - 1, r0).Fall?)
    && (|fs.code| == 0 ==> forall i :: i >= fs.nactvar ==> Get(r0, i) == Nil)
  }

  ghost predicate RunOK(fs: FS, P: set<int>, s: int, r0: Regs) {
    0 <= s <= |fs.code| && !RunOf(fs, P, s, r0).Stuck? && NilOK(fs, P, s, r0)
  }

  lemma SettleRun(fs: FS, P: set<int>, s: int, r0: Regs)
    requires WF(fs, P) && !RunOf(fs, P, s, r0).Stuck?
    ensures Exec(Patch(fs.code, fs.here, |fs.code|, NO_REG, |fs.code|), fs.k, P, s, |fs.code|, r0)
            == Settled(RunOf(fs, P, s, r0), fs.here)
  {
    var n := |fs.code|;
    PatchExec(fs.code, fs.k, P + SetOf(fs.here), fs.here, n, NO_REG, n, s, n, n, r0);
    assert P + SetOf(fs.here) - SetOf(fs.here) == P;
  }

  /** An ordinary instruction is executed by the runs that arrive. */
  lemma EmitRun(fs: FS, i: Instr, P: set<int>, s: int, r0: Regs)
    requires WF(fs, P) && !IsTest(i) && 0 <= s <= |fs.code|
    requires !RunOf(fs, P, s, r0).Stuck?
    requires var o := RunOf(fs, P, s, r0);
             Arrived(o, fs.here) ==> EffectOf(i, fs.k, o.r).Next? && !EffectOf(i, fs.k, o.r).skip
    ensures var o := RunOf(fs, P, s, r0);
            && RunOf(Emit(fs, i), P, s, r0)
               == (if Arrived(o, fs.here) then Fall(EffectOf(i, fs.k, o.r).r) else o)
            && Exec(Emit(fs, i).code, fs.k, P, s, |fs.code|, r0) == Settled(o, fs.here)
    ensures RunOK(Emit(fs, i), P, s, r0)
  {
    hide ListOK, TestsOK, ConstantsOK, Patch, Exec, EffectOf;
    var n, o := |fs.code|, RunOf(fs, P, s, r0);
    var c := Patch(fs.code, fs.here, n, NO_REG, n);
    var c' := Emit(fs, i).code;
    SettleRun(fs, P, s, r0);
    ExecAgree(c, fs.k, P, c', fs.k, P, s, n, r0);
    ExecSplit(c', fs.k, P, s, n, n + 1, r0);
    assert P + SetOf([]) == P;
    if Arrived(o, fs.here) { ExecLast(c', fs.k, P, n, o.r); }
  }

  lemma ExecLast(c: seq<Instr>, k: seq<Value>, P: set<int>, n: nat, r: Regs)
    requires |c| == n + 1 && EffectOf(c[n], k, r).Next? && !EffectOf(c[n], k, r).skip
    ensures Exec(c, k, P, n, n + 1, r) == Fall(EffectOf(c[n], k, r).r)
  {
    hide EffectOf;
    assert TurnAt(c, k, P, n, n + 1, r) == Go(n + 1, EffectOf(c[n], k, r).r);
  }

  /** A test with its jump. */
  function Branch(i: Instr, k: seq<Value>, j: int, r: Regs): Outcome {
    match EffectOf(i, k, r)
    case Tested(true) => Exit(j, r, if i.TestSet? then Some(Get(r, i.b)) else None)
    case Tested(false) => Fall(r)
    case Raises => Fault
    case _ => Stuck
  }

  lemma CondJumpRun(fs: FS, i: Instr, P: set<int>, s: int, r0: Regs)
    requires WF(fs, P) && IsTest(i) && 0 <= s <= |fs.code|
    requires !RunOf(fs, P, s, r0).Stuck?
    ensures var o := RunOf(fs, P, s, r0);
            var (fs', l) := CondJump(fs, i);
            && RunOf(fs', P + SetOf(l), s, r0)
               == (if Arrived(o, fs.here) then Branch(i, fs.k, |fs.code| + 1, o.r) else o)
            && Exec(fs'.code, fs.k, P, s, |fs.code|, r0) == Settled(o, fs.here)
  {
    hide Exec, PatchedAt, ListOK, TestsOK, ConstantsOK, EffectOf;
    var n, o := |fs.code|, RunOf(fs, P, s, r0);
    var c := Patch(fs.code, fs.here, n, NO_REG, n);
    CondJumpOK(fs, i, P);
    var (fs', l) := CondJump(fs, i);
    var c' := fs'.code;
    SettleRun(fs, P, s, r0);
    ExecAgree(c, fs.k, P, c', fs.k, P, s, n, r0);
    ExecAgree(c, fs.k, P, c', fs.k, P + {n + 1}, s, n, r0);
    ExecSplit(c', fs.k, P + {n + 1}, s, n, n + 2, r0);
    assert P + SetOf(l) + SetOf([]) == P + {n + 1};
    if Arrived(o, fs.here) {
      BranchExec(c', fs.k, P + {n + 1}, n, o.r);
    }
  }

  lemma BranchExec(c: seq<Instr>, k: seq<Value>, P: set<int>, n: int, r: Regs)
    requires 0 <= n && n + 2 <= |c| && IsTest(c[n]) && c[n + 1].Jmp? && n + 1 in P
    ensures Exec(c, k, P, n, n + 2, r) == Branch(c[n], k, n + 1, r)
  {
    assert Exec(c, k, P, n + 2, n + 2, r) == Fall(r);
  }

  /** luaK_jump: runs that fall to the end leave by the new jump; runs that
      were waiting leave by their own jumps, with the values they hold. */
  lemma JumpRun(fs: FS, P: set<int>, s: int, r0: Regs)
    requires WF(fs, P) && 0 <= s <= |fs.code| && !RunOf(fs, P, s, r0).Stuck?
    ensures var o := RunOf(fs, P, s, r0);
            var (fs', l) := Jump(fs);
            && RunOf(fs', P + SetOf(l), s, r0)
               == (if o.Fall? then Exit(|fs.code|, o.r, None) else o)
            && (Arrived(o, fs.here) ==> RunOf(fs', P + SetOf(l), s, r0).at in l)
  {
    hide Exec, ListOK, ConstantsOK, EffectOf;
    var n, o := |fs.code|, RunOf(fs, P, s, r0);
    JumpOK(fs, P);
    var (fs', l) := Jump(fs);
    var Q := P + SetOf(l);
    ExecAgree(fs.code, fs.k, P + SetOf(fs.here), fs'.code, fs.k, Q, s, n, r0);
    ExecSplit(fs'.code, fs.k, Q, s, n, n + 1, r0);
    assert Q + SetOf([]) == Q;
    assert forall j :: j in SetOf(l) ==> j in l;
    if o.Fall? {
      assert 0 < n ==> !IsTest(fs'.code[n - 1]) by { assert 0 < n ==> fs'.code[n - 1] == fs.code[n - 1]; }
      JumpExec(fs'.code, fs.k, Q, n, o.r);
    }
  }

  lemma JumpExec(c: seq<Instr>, k: seq<Value>, P: set<int>, n: int, r: Regs)
    requires 0 <= n < |c| && c[n].Jmp? && n in P && (0 < n ==> !IsTest(c[n - 1]))
    ensures Exec(c, k, P, n, n + 1, r) == Exit(n, r, None)
  {
  }

  lemma SetNilsGet(r: Regs, a: int, b: int, i: int)
    ensures Get(SetNils(r, a, b), i) == if a <= i <= b then Nil else Get(r, i)
  {
  }

  /** A run that does not fall through the last instruction does not see it. */
  lemma {:induction false} ExecLastNil(c: seq<Instr>, c': seq<Instr>, k: seq<Value>, P: set<int>,
                                       pc: int, r: Regs)
    requires |c| > 0 && |c'| == |c| && c[..|c| - 1] == c'[..|c| - 1]
    requires c[|c| - 1].LoadNil? && c'[|c| - 1].LoadNil?
    requires !Exec(c, k, P, pc, |c|, r).Fall? && !Exec(c, k, P, pc, |c|, r).Stuck?
    ensures Exec(c', k, P, pc, |c|, r) == Exec(c, k, P, pc, |c|, r)
    decreases |c| - pc
  {
    var n := |c|;
    assert forall i :: 0 <= i < n - 1 ==> c'[i] == c[..n - 1][i];
    LastNilFalls(c, k, P, r);
    assert TurnAt(c', k, P, pc, n, r) == TurnAt(c, k, P, pc, n, r);
    var t := TurnAt(c, k, P, pc, n, r);
    if t.Go? { ExecLastNil(c, c', k, P, t.pc, t.r); }
  }

  lemma LastNilFalls(c: seq<Instr>, k: seq<Value>, P: set<int>, r: Regs)
    requires |c| > 0 && c[|c| - 1].LoadNil?
    ensures Exec(c, k, P, |c| - 1, |c|, r).Fall?
  {
    var t := TurnAt(c, k, P, |c| - 1, |c|, r);
    assert Exec(c, k, P, |c|, |c|, t.r) == Fall(t.r);
  }

  /** The registers differ at most at reg, which holds v. */
  ghost predicate Stores(r': Regs, r: Regs, reg: int, v: Value) {
    Get(r', reg) == v && forall i :: i != reg ==> Get(r', i) == Get(r, i)
  }

  lemma EmitNilRun(fs: FS, reg: int, P: set<int>, s: int, r0: Regs)
    requires WF(fs, P) && RunOK(fs, P, s, r0) && reg >= 0
    ensures var o := RunOf(fs, P, s, r0);
            var o' := RunOf(EmitNil(fs, reg, 1), P, s, r0);
            if Arrived(o, fs.here) then o'.Fall? && Stores(o'.r, o.r, reg, Nil) else o' == o
    ensures RunOK(EmitNil(fs, reg, 1), P, s, r0)
  {
    hide ListOK, TestsOK, ConstantsOK, PatchedAt;
    var n, o := |fs.code|, RunOf(fs, P, s, r0);
    assert P + SetOf([]) == P;
    if n > fs.lasttarget && n == 0 && reg >= fs.nactvar {
    } else if CanExtendNil(fs, reg) {
      assert fs.here == [];
      var p := fs.code[n - 1];
      if reg > p.b { ExtendNilRun(fs, reg, P, s, r0); }
      else if o.Fall? {
        var rp := Exec(fs.code, fs.k, P, s, n - 1, r0).r;
        ExecSplit(fs.code, fs.k, P, s, n - 1, n, r0);
        assert TurnAt(fs.code, fs.k, P, n - 1, n, rp) == Go(n, SetNils(rp, p.a, p.b));
        SetNilsGet(rp, p.a, p.b, reg);
      }
    } else {
      EmitRun(fs, LoadNil(reg, reg), P, s, r0);
      if Arrived(o, fs.here) {
        forall i ensures Get(SetNils(o.r, reg, reg), i) == if i == reg then Nil else Get(o.r, i) {
          SetNilsGet(o.r, reg, reg, i);
        }
      }
    }
  }

  lemma ExtendNilRun(fs: FS, reg: int, P: set<int>, s: int, r0: Regs)
    requires WF(fs, P) && RunOK(fs, P, s, r0) && CanExtendNil(fs, reg) && reg > fs.code[|fs.code| - 1].b
    ensures var o := RunOf(fs, P, s, r0);
            var o' := RunOf(EmitNil(fs, reg, 1), P, s, r0);
            if o.Fall? then o'.Fall? && Stores(o'.r, o.r, reg, Nil) else o' == o
    ensures RunOK(EmitNil(fs, reg, 1), P, s, r0)
  {
    hide ListOK, TestsOK, ConstantsOK, Exec;
    var n, o := |fs.code|, RunOf(fs, P, s, r0);
    var p := fs.code[n - 1];
    var c' := fs.code[n - 1 := LoadNil(p.a, reg)];
    assert EmitNil(fs, reg, 1) == fs.(code := c');
    assert fs.here == [] && P + SetOf([]) == P;
    if o.Fall? {
      var rp := Exec(fs.code, fs.k, P, s, n - 1, r0).r;
      ExecSplit(fs.code, fs.k, P, s, n - 1, n, r0);
      ExecAgree(fs.code, fs.k, P, c', fs.k, P, s, n - 1, r0);
      ExecSplit(c', fs.k, P, s, n - 1, n, r0);
      ExecLast(fs.code, fs.k, P, n - 1, rp);
      ExecLast(c', fs.k, P, n - 1, rp);
      forall i ensures Get(SetNils(rp, p.a, reg), i) == if i == reg then Nil else Get(o.r, i) {
        SetNilsGet(rp, p.a, reg, i);
        SetNilsGet(rp, p.a, p.b, i);
      }
    } else {
      ExecLastNil(fs.code, c', fs.k, P, s, r0);
    }
  }
}
