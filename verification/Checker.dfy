/** The bytecode checker of ldebug.c and the runs of the code it accepts. */
module Checker {

  const MAXSTACK := 250
  const NO_REG := 255
  const BITRK := 256
  const MAXARG_sBx := 131071

  /** A 32-bit instruction word by its fields: 6 + 8 + 9 + 9 bits. Any word
      decodes, also one that is really the count of a SETLIST. */
  datatype Word = Word(op: nat, a: nat, b: nat, c: nat) {
    function Bx(): nat { b * 512 + c }
    function SBx(): int { Bx() - MAXARG_sBx }
    predicate IsZero() { op == 0 && a == 0 && b == 0 && c == 0 }
  }

  const OP_MOVE := 0
  const OP_LOADK := 1
  const OP_LOADBOOL := 2
  const OP_LOADNIL := 3
  const OP_GETUPVAL := 4
  const OP_GETGLOBAL := 5
  const OP_GETTABLE := 6
  const OP_SETGLOBAL := 7
  const OP_SETUPVAL := 8
  const OP_SETTABLE := 9
  const OP_NEWTABLE := 10
  const OP_SELF := 11
  const OP_ADD := 12
  const OP_POW := 17
  const OP_UNM := 18
  const OP_NOT := 19
  const OP_LEN := 20
  const OP_CONCAT := 21
  const OP_JMP := 22
  const OP_EQ := 23
  const OP_LT := 24
  const OP_LE := 25
  const OP_TEST := 26
  const OP_TESTSET := 27
  const OP_CALL := 28
  const OP_TAILCALL := 29
  const OP_RETURN := 30
  const OP_FORLOOP := 31
  const OP_FORPREP := 32
  const OP_TFORLOOP := 33
  const OP_SETLIST := 34
  const OP_CLOSE := 35
  const OP_CLOSURE := 36
  const OP_VARARG := 37
  const NUM_OPCODES := 38

  datatype OpMode = IABC | IABx | IAsBx
  datatype ArgMode = ArgN | ArgU | ArgR | ArgK

  /** luaP_opmodes */
  function ModeOf(op: int): OpMode {
    if op == OP_LOADK || op == OP_GETGLOBAL || op == OP_SETGLOBAL || op == OP_CLOSURE then IABx
    else if op == OP_JMP || op == OP_FORLOOP || op == OP_FORPREP then IAsBx
    else IABC
  }

  function BModeOf(op: int): ArgMode {
    if op == OP_TFORLOOP || op == OP_CLOSE then ArgN
    else if op == OP_LOADBOOL || op == OP_GETUPVAL || op == OP_SETUPVAL || op == OP_NEWTABLE || op == OP_CALL
            || op == OP_TAILCALL || op == OP_RETURN || op == OP_SETLIST || op == OP_CLOSURE || op == OP_VARARG then ArgU
    else if op == OP_LOADK || op == OP_GETGLOBAL || op == OP_SETGLOBAL || op == OP_SETTABLE
            || OP_ADD <= op <= OP_POW || op == OP_EQ || op == OP_LT || op == OP_LE then ArgK
    else ArgR
  }

  function CModeOf(op: int): ArgMode {
    if op == OP_LOADBOOL || op == OP_NEWTABLE || op == OP_TEST || op == OP_TESTSET || op == OP_CALL
       || op == OP_TAILCALL || op == OP_TFORLOOP || op == OP_SETLIST then ArgU
    else if op == OP_GETTABLE || op == OP_SETTABLE || op == OP_SELF || OP_ADD <= op <= OP_POW
            || op == OP_EQ || op == OP_LT || op == OP_LE then ArgK
    else if op == OP_CONCAT then ArgR
    else ArgN
  }

  /** testTMode */
  predicate IsTestOp(op: int) {
    op == OP_EQ || op == OP_LT || op == OP_LE || op == OP_TEST || op == OP_TESTSET || op == OP_TFORLOOP
  }

  /** What the checker reads of a Proto: which constants are strings and how
      many upvalues each nested prototype has. */
  datatype Proto = Proto(code: seq<Word>, kIsString: seq<bool>, protoNups: seq<nat>,
                         nups: nat, maxstacksize: nat, numparams: nat,
                         hasArg: bool, isVararg: bool, needsArg: bool,
                         sizeupvalues: nat, sizelineinfo: nat)

  /** precheck */
  predicate Precheck(pt: Proto) {
    && pt.maxstacksize <= MAXSTACK
    && pt.numparams + (if pt.hasArg then 1 else 0) <= pt.maxstacksize
    && (!pt.needsArg || pt.hasArg)
    && pt.sizeupvalues <= pt.nups
    && (pt.sizelineinfo == |pt.code| || pt.sizelineinfo == 0)
    && |pt.code| > 0 && pt.code[|pt.code| - 1].op == OP_RETURN
  }

  predicate Reg(pt: Proto, r: int) {
    r < pt.maxstacksize
  }

  predicate RK(pt: Proto, r: int) {
    if r >= BITRK then r - BITRK < |pt.kIsString| else r < pt.maxstacksize
  }

  /** checkArgMode */
  predicate ArgOK(pt: Proto, r: int, mode: ArgMode) {
    match mode
    case ArgN => r == 0
    case ArgU => true
    case ArgR => Reg(pt, r)
    case ArgK => RK(pt, r)
  }

  /** luaG_checkopenop */
  predicate OpenOK(w: Word) {
    (w.op == OP_CALL || w.op == OP_TAILCALL || w.op == OP_RETURN || w.op == OP_SETLIST) && w.b == 0
  }

  /** The word looks like a SETLIST whose count is the next word. */
  predicate LooksLong(w: Word) {
    w.op == OP_SETLIST && w.c == 0
  }

  /** The number of such words just before position dest. */
  function LongRun(code: seq<Word>, dest: int): nat
    requires 0 <= dest <= |code|
    decreases dest
  {
    if dest > 0 && LooksLong(code[dest - 1]) then 1 + LongRun(code, dest - 1) else 0
  }

  predicate JumpOK(code: seq<Word>, dest: int) {
    0 <= dest < |code| && LongRun(code, dest) % 2 == 0
  }

  // ---------------------------------------------------------------------
  // Instruction boundaries

  /** Position p starts an instruction: it is not the count of a SETLIST. */
  predicate Real(code: seq<Word>, p: int)
    requires 0 <= p <= |code|
    decreases p
  {
    p == 0 || !(Real(code, p - 1) && LooksLong(code[p - 1]))
  }

  /** The parity test on jump targets is exact. */
  lemma {:induction false} ParityExact(code: seq<Word>, dest: int)
    requires 0 <= dest <= |code|
    ensures Real(code, dest) <==> LongRun(code, dest) % 2 == 0
    decreases dest
  {
    if dest > 0 { ParityExact(code, dest - 1); }
  }

  // ---------------------------------------------------------------------
  // What symbexec checks of one instruction in full-check mode

  predicate OperandsChecked(pt: Proto, pc: int)
    requires 0 <= pc < |pt.code|
  {
    var w := pt.code[pc];
    && w.op < NUM_OPCODES
    && Reg(pt, w.a)
    && match ModeOf(w.op)
       case IABC => ArgOK(pt, w.b, BModeOf(w.op)) && ArgOK(pt, w.c, CModeOf(w.op))
       case IABx => BModeOf(w.op) == ArgK ==> w.Bx() < |pt.kIsString|
       case IAsBx => JumpOK(pt.code, pc + 1 + w.SBx())
  }

  predicate SkipChecked(pt: Proto, pc: int)
    requires 0 <= pc < |pt.code|
  {
    var w := pt.code[pc];
    && (IsTestOp(w.op) ==> pc + 2 < |pt.code| && pt.code[pc + 1].op == OP_JMP)
    && (w.op == OP_LOADBOOL && w.c == 1 ==> pc + 2 < |pt.code| && !LooksLong(pt.code[pc + 1]))
  }

  predicate OpChecked(pt: Proto, pc: int)
    requires 0 <= pc < |pt.code|
  {
    var w, n := pt.code[pc], |pt.code|;
    if w.op == OP_GETUPVAL || w.op == OP_SETUPVAL then w.b < pt.nups
    else if w.op == OP_GETGLOBAL || w.op == OP_SETGLOBAL then
      w.Bx() < |pt.kIsString| && pt.kIsString[w.Bx()]
    else if w.op == OP_SELF then Reg(pt, w.a + 1)
    else if w.op == OP_CONCAT then w.b < w.c
    else if w.op == OP_TFORLOOP then w.c >= 1 && Reg(pt, w.a + 2 + w.c)
    else if w.op == OP_FORLOOP || w.op == OP_FORPREP then Reg(pt, w.a + 3)
    else if w.op == OP_CALL || w.op == OP_TAILCALL then
      && (w.b != 0 ==> Reg(pt, w.a + w.b - 1))
      && (if w.c == 0 then pc + 1 < n && OpenOK(pt.code[pc + 1])
          else w.c != 1 ==> Reg(pt, w.a + w.c - 2))
    else if w.op == OP_RETURN then w.b > 1 ==> Reg(pt, w.a + w.b - 2)
    else if w.op == OP_SETLIST then (w.b > 0 ==> Reg(pt, w.a + w.b)) && (w.c == 0 ==> pc + 1 < n - 1)
    else if w.op == OP_CLOSURE then
      && w.Bx() < |pt.protoNups|
      && pc + pt.protoNups[w.Bx()] < n
      && forall i :: pc < i <= pc + pt.protoNups[w.Bx()] ==>
           pt.code[i].op == OP_GETUPVAL || pt.code[i].op == OP_MOVE
    else if w.op == OP_VARARG then
      && pt.isVararg && !pt.needsArg
      && (w.b == 0 ==> pc + 1 < n && OpenOK(pt.code[pc + 1]))
      && Reg(pt, w.a + w.b - 2)
    else true
  }

  predicate Checked(pt: Proto, pc: int)
    requires 0 <= pc < |pt.code|
  {
    OperandsChecked(pt, pc) && SkipChecked(pt, pc) && OpChecked(pt, pc)
  }

  /** The prototypes that luaG_checkcode accepts. */
  predicate Accepts(pt: Proto) {
    Precheck(pt) && forall pc :: 0 <= pc < |pt.code| && Real(pt.code, pc) ==> Checked(pt, pc)
  }

  // ---------------------------------------------------------------------
  // The machine: where control can go and what an instruction touches

  /** Positions that luaV_execute can reach in one step; a return has none. */
  predicate Succ(pt: Proto, pc: int, q: int)
    requires 0 <= pc < |pt.code|
  {
    var w, n := pt.code[pc], |pt.code|;
    if w.op == OP_RETURN then false
    else if w.op == OP_JMP || w.op == OP_FORPREP then q == pc + 1 + w.SBx()
    else if w.op == OP_FORLOOP then q == pc + 1 || q == pc + 1 + w.SBx()
    else if IsTestOp(w.op) then q == pc + 2 || (pc + 1 < n && q == pc + 2 + pt.code[pc + 1].SBx())
    else if w.op == OP_LOADBOOL then q == if w.c != 0 then pc + 2 else pc + 1
    else if w.op == OP_SETLIST then q == if w.c == 0 then pc + 2 else pc + 1
    else if w.op == OP_CLOSURE && w.Bx() < |pt.protoNups| then q == pc + 1 + pt.protoNups[w.Bx()]
    else q == pc + 1
  }

  /** Control stands on an instruction of the code. */
  predicate Inside(pt: Proto, pc: int) {
    0 <= pc < |pt.code| && Real(pt.code, pc)
  }

  predicate InReg(pt: Proto, r: int) {
    0 <= r < pt.maxstacksize
  }

  predicate InRK(pt: Proto, r: int) {
    if r >= BITRK then r - BITRK < |pt.kIsString| else InReg(pt, r)
  }

  /** Every register, constant, upvalue and nested prototype that the
      instruction names with a fixed count exists. */
  predicate OperandsInBounds(pt: Proto, pc: int)
    requires 0 <= pc < |pt.code|
  {
    var w := pt.code[pc];
    if w.op == OP_MOVE || w.op == OP_UNM || w.op == OP_NOT || w.op == OP_LEN || w.op == OP_TESTSET
    then InReg(pt, w.a) && InReg(pt, w.b)
    else if w.op == OP_LOADK then InReg(pt, w.a) && w.Bx() < |pt.kIsString|
    else if w.op == OP_LOADBOOL || w.op == OP_NEWTABLE || w.op == OP_TEST || w.op == OP_CLOSE then InReg(pt, w.a)
    else if w.op == OP_LOADNIL then
      InReg(pt, w.a) && InReg(pt, w.b) && forall r :: w.a <= r <= w.b ==> InReg(pt, r)
    else if w.op == OP_GETUPVAL || w.op == OP_SETUPVAL then InReg(pt, w.a) && 0 <= w.b < pt.nups
    else if w.op == OP_GETGLOBAL || w.op == OP_SETGLOBAL then
      InReg(pt, w.a) && w.Bx() < |pt.kIsString| && pt.kIsString[w.Bx()]
    else if w.op == OP_GETTABLE then InReg(pt, w.a) && InReg(pt, w.b) && InRK(pt, w.c)
    else if w.op == OP_SETTABLE || OP_ADD <= w.op <= OP_POW then InReg(pt, w.a) && InRK(pt, w.b) && InRK(pt, w.c)
    else if w.op == OP_SELF then InReg(pt, w.a) && InReg(pt, w.a + 1) && InReg(pt, w.b) && InRK(pt, w.c)
    else if w.op == OP_CONCAT then InReg(pt, w.a) && w.b < w.c && forall r :: w.b <= r <= w.c ==> InReg(pt, r)
    else if w.op == OP_EQ || w.op == OP_LT || w.op == OP_LE then InRK(pt, w.b) && InRK(pt, w.c)
    else if w.op == OP_CALL || w.op == OP_TAILCALL then
      InReg(pt, w.a) && (forall r :: w.a <= r < w.a + w.b ==> InReg(pt, r))
      && (forall r :: w.a <= r < w.a + w.c - 1 ==> InReg(pt, r))
    else if w.op == OP_RETURN then forall r :: w.a <= r < w.a + w.b - 1 ==> InReg(pt, r)
    else if w.op == OP_FORLOOP || w.op == OP_FORPREP then forall r :: w.a <= r <= w.a + 3 ==> InReg(pt, r)
    else if w.op == OP_TFORLOOP then forall r :: w.a <= r <= w.a + 2 + w.c ==> InReg(pt, r)
    else if w.op == OP_SETLIST then forall r :: w.a <= r <= w.a + w.b ==> InReg(pt, r)
    else if w.op == OP_CLOSURE then
      && InReg(pt, w.a) && w.Bx() < |pt.protoNups|
      && pc + pt.protoNups[w.Bx()] < |pt.code|
      && forall i :: pc < i <= pc + pt.protoNups[w.Bx()] ==> CaptureInBounds(pt, pt.code[i])
    else if w.op == OP_VARARG then InReg(pt, w.a) && forall r :: w.a <= r < w.a + w.b - 1 ==> InReg(pt, r)
    else w.op == OP_JMP
  }

  /** A pseudo-instruction of CLOSURE names an upvalue or a register. */
  predicate CaptureInBounds(pt: Proto, w: Word) {
    if w.op == OP_GETUPVAL then 0 <= w.b < pt.nups else w.op == OP_MOVE && InReg(pt, w.b)
  }

  // ---------------------------------------------------------------------
  // symbexec

  /** The loop of symbexec over a jump target. */
  method CheckTarget(code: seq<Word>, dest: int) returns (ok: bool)
    ensures ok <==> JumpOK(code, dest)
  {
    if !(0 <= dest < |code|) { return false; }
    var j := 0;
    while j < dest && LooksLong(code[dest - 1 - j])
      invariant 0 <= j <= dest
      invariant LongRun(code, dest) == j + LongRun(code, dest - j)
    {
      j := j + 1;
    }
    ok := j % 2 == 0;
  }

  method CheckArgs(pt: Proto, pc: nat) returns (ok: bool)
    requires pc < |pt.code|
    ensures ok <==> OperandsChecked(pt, pc)
  {
    var w := pt.code[pc];
    if w.op >= NUM_OPCODES || !Reg(pt, w.a) { return false; }
    match ModeOf(w.op) {
      case IABC => ok := ArgOK(pt, w.b, BModeOf(w.op)) && ArgOK(pt, w.c, CModeOf(w.op));
      case IABx => ok := BModeOf(w.op) != ArgK || w.Bx() < |pt.kIsString|;
      case IAsBx => ok := CheckTarget(pt.code, pc + 1 + w.SBx());
    }
  }

  /** The checks of the pseudo-instructions after a CLOSURE. */
  method CheckCaptures(pt: Proto, pc: nat) returns (ok: bool)
    requires pc < |pt.code| && pt.code[pc].op == OP_CLOSURE
    ensures ok <==> OpChecked(pt, pc)
  {
    var w := pt.code[pc];
    if w.Bx() >= |pt.protoNups| { return false; }
    var nup := pt.protoNups[w.Bx()];
    if pc + nup >= |pt.code| { return false; }
    var j := 1;
    while j <= nup
      invariant 1 <= j <= nup + 1
      invariant forall i :: pc < i < pc + j ==> pt.code[i].op == OP_GETUPVAL || pt.code[i].op == OP_MOVE
    {
      if pt.code[pc + j].op != OP_GETUPVAL && pt.code[pc + j].op != OP_MOVE { return false; }
      j := j + 1;
    }
    return true;
  }

  /** symbexec in full-check mode (reg == NO_REG, lastpc == sizecode). The
      result is the instruction at `last`, or None where a check fails. */
  method Symbexec(pt: Proto) returns (ok: bool, result: Word)
    ensures ok <==> Accepts(pt)
    ensures ok ==> !result.IsZero()
  {
    result := Word(0, 0, 0, 0);
    if !Precheck(pt) { return false, result; }
    var last := |pt.code| - 1;
    var pc := 0;
    while pc < |pt.code|
      invariant 0 <= pc <= |pt.code| && Real(pt.code, pc)
      invariant forall p :: 0 <= p < pc && Real(pt.code, p) ==> Checked(pt, p)
      invariant 0 <= last < |pt.code| && pt.code[last].op >= OP_CALL
    {
      var w := pt.code[pc];
      var args := CheckArgs(pt, pc);
      if !args { return false, result; }
      if !SkipChecked(pt, pc) { return false, result; }
      if w.op == OP_CLOSURE {
        var captures := CheckCaptures(pt, pc);
        if !captures { return false, result; }
      } else if !OpChecked(pt, pc) {
        return false, result;
      }
      if (w.op == OP_TFORLOOP && NO_REG >= w.a + 2)
         || ((w.op == OP_CALL || w.op == OP_TAILCALL) && NO_REG >= w.a) {
        last := pc;
      }
      assert Checked(pt, pc);
      pc := if w.op == OP_SETLIST && w.c == 0 then pc + 2 else pc + 1;
    }
    return true, pt.code[last];
  }

  /** luaG_checkcode */
  method CheckCode(pt: Proto) returns (accepted: bool)
    ensures accepted <==> Accepts(pt)
  {
    var ok, w := Symbexec(pt);
    accepted := ok && !w.IsZero();
  }

  // ---------------------------------------------------------------------
  // Soundness

  /** Words after an accepted CLOSURE up to the last capture are real. */
  lemma {:induction false} CapturesReal(pt: Proto, pc: int, i: int)
    requires Accepts(pt) && Inside(pt, pc) && pt.code[pc].op == OP_CLOSURE
    requires pc <= i <= pc + pt.protoNups[pt.code[pc].Bx()] < |pt.code|
    requires Checked(pt, pc)
    ensures Real(pt.code, i) && Real(pt.code, i + 1)
    decreases i
  {
    if i > pc { CapturesReal(pt, pc, i - 1); }
  }

  lemma OperandsSound(pt: Proto, pc: int)
    requires Accepts(pt) && Inside(pt, pc)
    ensures OperandsInBounds(pt, pc)
  {
    assert Checked(pt, pc);
    if pt.code[pc].op == OP_CLOSURE { ClosureSound(pt, pc); }
  }

  lemma ClosureSound(pt: Proto, pc: int)
    requires Accepts(pt) && Inside(pt, pc) && pt.code[pc].op == OP_CLOSURE
    ensures OperandsInBounds(pt, pc)
  {
    var w := pt.code[pc];
    assert Checked(pt, pc);
    forall i | pc < i <= pc + pt.protoNups[w.Bx()] ensures CaptureInBounds(pt, pt.code[i]) {
      CapturesReal(pt, pc, i);
      assert Checked(pt, i);
    }
  }

  /** A LOADBOOL that skips although its C is not 1. */
  predicate OddSkip(pt: Proto, pc: int) {
    Inside(pt, pc) && pt.code[pc].op == OP_LOADBOOL && pt.code[pc].c >= 2
  }

  lemma StepSound(pt: Proto, pc: int, q: int)
    requires Accepts(pt) && Inside(pt, pc) && Succ(pt, pc, q) && !OddSkip(pt, pc)
    ensures Inside(pt, q)
  {
    var w, n := pt.code[pc], |pt.code|;
    assert Checked(pt, pc);
    if ModeOf(w.op) == IAsBx { ParityExact(pt.code, pc + 1 + w.SBx()); }
    if IsTestOp(w.op) {
      assert Real(pt.code, pc + 1) && Checked(pt, pc + 1);
      ParityExact(pt.code, pc + 2 + pt.code[pc + 1].SBx());
    }
    if w.op == OP_CLOSURE { CapturesReal(pt, pc, pc + pt.protoNups[w.Bx()]); }
  }

  /** Every LOADBOOL whose C is neither 0 nor 1 skips to an instruction. */
  predicate OddSkipsLand(pt: Proto) {
    forall pc :: 0 <= pc < |pt.code| && OddSkip(pt, pc) ==> pc + 2 < |pt.code| && !LooksLong(pt.code[pc + 1])
  }

  ghost predicate ClosedUnderSteps(pt: Proto) {
    forall pc, q :: Inside(pt, pc) && Succ(pt, pc, q) ==> Inside(pt, q)
  }

  /** For accepted code, no step leaves the instructions exactly when the
      LOADBOOLs that the checker does not look at land well. */
  lemma ClosedExactly(pt: Proto)
    requires Accepts(pt)
    ensures ClosedUnderSteps(pt) <==> OddSkipsLand(pt)
  {
    if OddSkipsLand(pt) {
      forall pc, q | Inside(pt, pc) && Succ(pt, pc, q) ensures Inside(pt, q) {
        if !OddSkip(pt, pc) { StepSound(pt, pc, q); }
      }
    }
    if ClosedUnderSteps(pt) {
      forall pc | 0 <= pc < |pt.code| && OddSkip(pt, pc)
        ensures pc + 2 < |pt.code| && !LooksLong(pt.code[pc + 1])
      {
        assert Succ(pt, pc, pc + 2);
        assert Inside(pt, pc + 2);
        assert Real(pt.code, pc + 1);
      }
    }
  }

  /** Accepted code that a run leaves: the last LOADBOOL skips the RETURN. */
  lemma AcceptedButLeaves()
    ensures var pt := Proto([Word(OP_LOADBOOL, 0, 0, 2), Word(OP_RETURN, 0, 1, 0)], [], [], 0, 1, 0,
                            false, false, false, 0, 0);
            Accepts(pt) && Inside(pt, 0) && Succ(pt, 0, 2) && !Inside(pt, 2)
  {
  }

  predicate IsRun(pt: Proto, run: seq<int>) {
    |run| > 0 && run[0] == 0
    && forall i :: 0 <= i < |run| - 1 ==> 0 <= run[i] < |pt.code| && Succ(pt, run[i], run[i + 1])
  }

  /** Every run of accepted code stays on its instructions, and every operand
      it meets exists. */
  lemma {:induction false} RunsSound(pt: Proto, run: seq<int>, i: int)
    requires Accepts(pt) && OddSkipsLand(pt) && IsRun(pt, run) && 0 <= i < |run|
    ensures Inside(pt, run[i]) && OperandsInBounds(pt, run[i])
    decreases i
  {
    if i > 0 {
      RunsSound(pt, run, i - 1);
      ClosedExactly(pt);
    }
    OperandsSound(pt, run[i]);
  }
}
