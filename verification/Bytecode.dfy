/** The instructions that expressions compile to, the machine that runs them,
    and an execution function for code whose jumps are not all patched yet. */
module Bytecode {
  import opened Options
  import opened LuaValue

  /** Stands for the source's 255: MAXSTACK keeps real registers below it. */
  const NO_REG := -1

  /** The largest index of a constant that fits an operand. */
  const MAXINDEXRK := 255

  /** An RK operand: a register, or a constant whose index fits nine bits. */
  datatype RK = R(r: int) | K(i: int)

  datatype Instr =
    | Move(a: int, b: int)
    | LoadK(a: int, bx: int)
    | LoadBool(a: int, v: bool, skip: bool)
    | LoadNil(a: int, b: int)
    | Not(a: int, b: int)
    | Jmp(sbx: int)
    | Comp(op: CmpOp, cond: bool, x: RK, y: RK)
    | Test(a: int, c: bool)
    | TestSet(a: int, b: int, c: bool)
    | Return(a: int)

  /** testTMode: the instruction is a test, so a jump follows it. */
  predicate IsTest(i: Instr) {
    i.Comp? || i.Test? || i.TestSet?
  }

  type Regs = map<int, Value>

  function Get(r: Regs, i: int): Value {
    if i in r then r[i] else Nil
  }

  function Set(r: Regs, i: int, v: Value): Regs {
    if Get(r, i) == v then r else r[i := v]
  }

  function SetNils(r: Regs, a: int, b: int): Regs {
    map i | i in r && !(a <= i <= b) :: r[i]
  }

  /** The value of an operand, or None when it names no constant. */
  function Operand(k: seq<Value>, r: Regs, x: RK): Option<Value> {
    match x
    case R(i) => Some(Get(r, i))
    case K(i) => if 0 <= i < |k| then Some(k[i]) else None
  }

  /** What one instruction does: go on with new registers (perhaps skipping
      one), decide a test, jump, return, raise an error, or be ill-formed. */
  datatype Effect =
    | Next(r: Regs, skip: bool)
    | Tested(taken: bool)
    | Jumps
    | Returns(v: Value)
    | Raises
    | Illegal

  function CompareRK(k: seq<Value>, r: Regs, op: CmpOp, x: RK, y: RK): Effect {
    var vx, vy := Operand(k, r, x), Operand(k, r, y);
    if vx.None? || vy.None? then Illegal
    else match Compare(op, vx.value, vy.value)
         case None => Raises
         case Some(b) => Tested(b)
  }

  function EffectOf(i: Instr, k: seq<Value>, r: Regs): Effect {
    match i
    case Move(a, b) => Next(Set(r, a, Get(r, b)), false)
    case LoadK(a, bx) => if 0 <= bx < |k| then Next(Set(r, a, k[bx]), false) else Illegal
    case LoadBool(a, v, skip) => Next(Set(r, a, Boolean(v)), skip)
    case LoadNil(a, b) => Next(SetNils(r, a, b), false)
    case Not(a, b) => Next(Set(r, a, Boolean(IsFalse(Get(r, b)))), false)
    case Jmp(_) => Jumps
    case Comp(op, cond, x, y) =>
      (match CompareRK(k, r, op, x, y)
       case Tested(b) => Tested(b == cond)
       case e => e)
    case Test(a, c) => Tested(IsFalse(Get(r, a)) != c)
    case TestSet(_, b, c) => Tested(IsFalse(Get(r, b)) != c)
    case Return(a) => Returns(Get(r, a))
  }

  /** The registers after the test instruction i has been taken. */
  function AfterTest(i: Instr, r: Regs): Regs {
    if i.TestSet? && i.a != NO_REG then Set(r, i.a, Get(r, i.b)) else r
  }

  // ---------------------------------------------------------------------
  // The machine

  datatype Machine = Running(pc: int, r: Regs) | Done(v: Value) | Error | Crash

  /** One turn of the interpreter loop of luaV_execute. */
  function Step(code: seq<Instr>, k: seq<Value>, pc: int, r: Regs): Machine {
    if !(0 <= pc < |code|) then Crash
    else match EffectOf(code[pc], k, r)
         case Next(r1, skip) => Running(if skip then pc + 2 else pc + 1, r1)
         case Tested(false) => Running(pc + 2, r)
         case Tested(true) =>
           if pc + 1 < |code| && code[pc + 1].Jmp?
           then Running(pc + 2 + code[pc + 1].sbx, AfterTest(code[pc], r)) else Crash
         case Jumps => Running(pc + 1 + code[pc].sbx, r)
         case Returns(v) => Done(v)
         case Raises => Error
         case Illegal => Crash
  }

  function Run(code: seq<Instr>, k: seq<Value>, m: Machine, n: nat): Machine
    decreases n
  {
    if n == 0 || !m.Running? then m
    else Run(code, k, Step(code, k, m.pc, m.r), n - 1)
  }

  lemma {:induction false} RunAdd(code: seq<Instr>, k: seq<Value>, m: Machine, i: nat, j: nat)
    ensures Run(code, k, m, i + j) == Run(code, k, Run(code, k, m, i), j)
    decreases i
  {
    if i != 0 && m.Running? {
      RunAdd(code, k, Step(code, k, m.pc, m.r), i - 1, j);
    }
  }

  // ---------------------------------------------------------------------
  // Execution of unfinished code

  /** A run over code[..end] with the jumps in `pending` not patched: it
      reaches `end`, leaves by a pending jump carrying the value that a
      TESTSET would store, raises an error, or leaves the forward-only form. */
  datatype Outcome =
    | Fall(r: Regs)
    | Exit(at: int, r: Regs, cv: Option<Value>)
    | Fault
    | Stuck

  /** One turn of such a run: go on elsewhere, or stop. */
  datatype Turn = Go(pc: int, r: Regs) | Stop(o: Outcome)

  function Follow(code: seq<Instr>, pending: set<int>, j: int, r: Regs, r1: Regs, cv: Option<Value>): Turn
    requires 0 <= j < |code| && code[j].Jmp?
  {
    if j in pending then Stop(Exit(j, r, cv))
    else if code[j].sbx < 0 then Stop(Stuck)
    else Go(j + 1 + code[j].sbx, r1)
  }

  function TurnAt(code: seq<Instr>, k: seq<Value>, pending: set<int>, pc: int, end: int, r: Regs): Turn
    requires 0 <= pc < end <= |code|
  {
    match EffectOf(code[pc], k, r)
    case Next(r1, skip) => Go(if skip then pc + 2 else pc + 1, r1)
    case Tested(false) => Go(pc + 2, r)
    case Tested(true) =>
      if !(pc + 1 < end && code[pc + 1].Jmp?) then Stop(Stuck)
      else Follow(code, pending, pc + 1, r, AfterTest(code[pc], r),
                  if code[pc].TestSet? then Some(Get(r, code[pc].b)) else None)
    case Jumps =>
      if 0 < pc && IsTest(code[pc - 1]) then Stop(Stuck)
      else Follow(code, pending, pc, r, r, None)
    case Returns(_) => Stop(Stuck)
    case Raises => Stop(Fault)
    case Illegal => Stop(Stuck)
  }

  function Exec(code: seq<Instr>, k: seq<Value>, pending: set<int>, pc: int, end: int, r: Regs): Outcome
    requires end <= |code|
    decreases end - pc
  {
    if pc == end then Fall(r)
    else if !(0 <= pc < end) then Stuck
    else match TurnAt(code, k, pending, pc, end, r)
         case Go(pc1, r1) => Exec(code, k, pending, pc1, end, r1)
         case Stop(o) => o
  }

  /** With nothing pending, an execution is a run of the machine. */
  lemma {:induction false} ExecIsRun(code: seq<Instr>, k: seq<Value>, pc: int, end: int, r: Regs)
      returns (n: nat)
    requires end <= |code|
    requires !Exec(code, k, {}, pc, end, r).Stuck?
    ensures !Exec(code, k, {}, pc, end, r).Exit?
    ensures Exec(code, k, {}, pc, end, r).Fall? ==>
              Run(code, k, Running(pc, r), n) == Running(end, Exec(code, k, {}, pc, end, r).r)
    ensures Exec(code, k, {}, pc, end, r).Fault? ==> Run(code, k, Running(pc, r), n) == Error
    decreases end - pc
  {
    if pc == end {
      n := 0;
    } else {
      var m := Step(code, k, pc, r);
      if m.Running? {
        var n1 := ExecIsRun(code, k, m.pc, end, m.r);
        n := n1 + 1;
      } else {
        assert Run(code, k, m, 0) == m;
        n := 1;
      }
    }
  }

  /** Execution looks only at code[..end], ignores the offsets of pending
      jumps, does not mind more constants or pending jumps elsewhere. */
  lemma {:induction false} ExecAgree(c: seq<Instr>, k: seq<Value>, P: set<int>,
                                     c': seq<Instr>, k': seq<Value>, P': set<int>,
                                     pc: int, end: int, r: Regs)
    requires end <= |c| && end <= |c'| && k <= k'
    requires forall i :: 0 <= i < end ==> (i in P' <==> i in P)
    requires forall i :: 0 <= i < end ==> c'[i] == c[i] || (i in P && c[i].Jmp? && c'[i].Jmp?)
    requires !Exec(c, k, P, pc, end, r).Stuck?
    ensures Exec(c', k', P', pc, end, r) == Exec(c, k, P, pc, end, r)
    decreases end - pc
  {
    hide AfterTest;
    if pc != end {
      assert TurnAt(c', k', P', pc, end, r) == TurnAt(c, k, P, pc, end, r) by {
        assert EffectOf(c'[pc], k', r) == EffectOf(c[pc], k, r);
      }
      match TurnAt(c, k, P, pc, end, r)
      case Go(pc1, r1) => ExecAgree(c, k, P, c', k', P', pc1, end, r1);
      case Stop(_) =>
    }
  }

  // ---------------------------------------------------------------------
  // Patching

  /** getjumpcontrol finds a TESTSET for the jump at j. */
  predicate Carries(c: seq<Instr>, j: int)
    requires 0 <= j < |c|
  {
    1 <= j && c[j - 1].TestSet?
  }

  /** patchtestreg on the controlling TESTSET i. */
  function PatchTest(i: Instr, reg: int): Instr
    requires i.TestSet?
  {
    if reg != NO_REG && reg != i.b then TestSet(reg, i.b, i.c) else Test(i.b, i.c)
  }

  function PatchedAt(c: seq<Instr>, L: seq<int>, vtarget: int, reg: int, dtarget: int, i: int): Instr
    requires 0 <= i < |c|
  {
    if i in L then Jmp((if Carries(c, i) then vtarget else dtarget) - (i + 1))
    else if i + 1 in L && c[i].TestSet? then PatchTest(c[i], reg)
    else c[i]
  }

  /** patchlistaux: every jump of L goes to vtarget if it carries a value
      (then stored in reg) and to dtarget otherwise. */
  function Patch(c: seq<Instr>, L: seq<int>, vtarget: int, reg: int, dtarget: int): (c': seq<Instr>)
    ensures |c'| == |c|
  {
    seq(|c|, i requires 0 <= i < |c| => PatchedAt(c, L, vtarget, reg, dtarget, i))
  }

  /** removevalues: no jump of L carries a value any more. */
  function DropValues(c: seq<Instr>, L: seq<int>): (c': seq<Instr>)
    ensures |c'| == |c|
  {
    seq(|c|, i requires 0 <= i < |c| =>
      if i + 1 in L && c[i].TestSet? then PatchTest(c[i], NO_REG) else c[i])
  }

  function SetOf(L: seq<int>): set<int> {
    set j | j in L
  }

  /** Where a run that used to leave by a jump of L goes after Patch. */
  function Resume(c': seq<Instr>, k: seq<Value>, P': set<int>, L: seq<int>,
                  vtarget: int, reg: int, dtarget: int, end: int, end2: int, o: Outcome): Outcome
    requires end2 <= |c'|
  {
    match o
    case Fall(r1) => Exec(c', k, P', end, end2, r1)
    case Exit(j, r1, None) => if j in L then Exec(c', k, P', dtarget, end2, r1) else o
    case Exit(j, r1, Some(v)) =>
      if j !in L then o
      else Exec(c', k, P', vtarget, end2, if reg != NO_REG then Set(r1, reg, v) else r1)
    case _ => o
  }

  /** The same for one turn. */
  function Redirect(L: seq<int>, vtarget: int, reg: int, dtarget: int, m: Turn): Turn {
    match m
    case Stop(Exit(j, r1, None)) => if j in L then Go(dtarget, r1) else m
    case Stop(Exit(j, r1, Some(v))) =>
      if j in L then Go(vtarget, if reg != NO_REG then Set(r1, reg, v) else r1) else m
    case _ => m
  }

  lemma PatchTurn(c: seq<Instr>, k: seq<Value>, P: set<int>, L: seq<int>,
                  vtarget: int, reg: int, dtarget: int, pc: int, end: int, end2: int, r: Regs)
    requires 0 <= pc < end <= end2 <= |c|
    requires forall j :: j in L ==> 0 <= j < |c| && c[j].Jmp? && j in P
    requires forall j :: j in L ==> j < (if Carries(c, j) then vtarget else dtarget)
    requires TurnAt(c, k, P, pc, end, r) != Stop(Stuck)
    ensures TurnAt(Patch(c, L, vtarget, reg, dtarget), k, P - SetOf(L), pc, end2, r)
            == Redirect(L, vtarget, reg, dtarget, TurnAt(c, k, P, pc, end, r))
  {
    var c' := Patch(c, L, vtarget, reg, dtarget);
    assert 0 < pc ==> IsTest(c'[pc - 1]) == IsTest(c[pc - 1]);
    assert EffectOf(c'[pc], k, r) == EffectOf(c[pc], k, r);
  }

  /** Patching a list redirects exactly the runs that left by it. */
  lemma {:induction false} PatchExec(c: seq<Instr>, k: seq<Value>, P: set<int>, L: seq<int>,
                                     vtarget: int, reg: int, dtarget: int,
                                     pc: int, end: int, end2: int, r: Regs)
    requires end <= end2 <= |c|
    requires forall j :: j in L ==> 0 <= j < |c| && c[j].Jmp? && j in P
    requires forall j :: j in L ==> j < (if Carries(c, j) then vtarget else dtarget)
    requires !Exec(c, k, P, pc, end, r).Stuck?
    ensures Exec(Patch(c, L, vtarget, reg, dtarget), k, P - SetOf(L), pc, end2, r)
            == Resume(Patch(c, L, vtarget, reg, dtarget), k, P - SetOf(L), L, vtarget, reg, dtarget,
                      end, end2, Exec(c, k, P, pc, end, r))
    decreases end - pc
  {
    if pc != end {
      PatchTurn(c, k, P, L, vtarget, reg, dtarget, pc, end, end2, r);
      match TurnAt(c, k, P, pc, end, r)
      case Go(pc1, r1) => PatchExec(c, k, P, L, vtarget, reg, dtarget, pc1, end, end2, r1);
      case Stop(_) =>
    }
  }

  /** The jump by which a run leaves carries a value if a TESTSET controls it. */
  lemma {:induction false} ExitCarries(c: seq<Instr>, k: seq<Value>, P: set<int>, pc: int, end: int, r: Regs)
    requires end <= |c| && Exec(c, k, P, pc, end, r).Exit?
    ensures var o := Exec(c, k, P, pc, end, r);
            0 <= o.at < end && o.at in P && c[o.at].Jmp? && (o.cv.Some? <==> Carries(c, o.at))
    decreases end - pc
  {
    var t := TurnAt(c, k, P, pc, end, r);
    if t.Go? { ExitCarries(c, k, P, t.pc, end, t.r); }
  }

  /** An outcome without the value carried by a jump of L. */
  function Dropped(L: seq<int>, o: Outcome): Outcome {
    if o.Exit? && o.at in L then o.(cv := None) else o
  }

  lemma {:induction false} DropExec(c: seq<Instr>, k: seq<Value>, P: set<int>, L: seq<int>,
                                    pc: int, end: int, r: Regs)
    requires end <= |c|
    requires forall j :: j in L ==> 0 <= j < |c| && c[j].Jmp? && j in P
    requires !Exec(c, k, P, pc, end, r).Stuck?
    ensures Exec(DropValues(c, L), k, P, pc, end, r) == Dropped(L, Exec(c, k, P, pc, end, r))
    decreases end - pc
  {
    if pc != end {
      var c' := DropValues(c, L);
      var m := TurnAt(c, k, P, pc, end, r);
      assert TurnAt(c', k, P, pc, end, r) == if m.Stop? then Stop(Dropped(L, m.o)) else m by {
        assert 0 < pc ==> IsTest(c'[pc - 1]) == IsTest(c[pc - 1]);
        assert EffectOf(c'[pc], k, r) == EffectOf(c[pc], k, r);
      }
      if m.Go? { DropExec(c, k, P, L, m.pc, end, m.r); }
    }
  }

  /** A run to end2 is a run to end followed by one from end. */
  lemma {:induction false} ExecSplit(c: seq<Instr>, k: seq<Value>, P: set<int>,
                                     pc: int, end: int, end2: int, r: Regs)
    requires end <= end2 <= |c|
    requires !Exec(c, k, P, pc, end, r).Stuck?
    ensures var o := Exec(c, k, P, pc, end, r);
            Exec(c, k, P, pc, end2, r) == if o.Fall? then Exec(c, k, P, end, end2, o.r) else o
  {
    PatchExec(c, k, P, [], 0, NO_REG, 0, pc, end, end2, r);
    assert Patch(c, [], 0, NO_REG, 0) == c;
    assert P - SetOf([]) == P;
  }
}
