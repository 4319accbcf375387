/** The expression code generator of lcode.c as functions on values. A jump
    list is a sequence of positions here; its representation as offsets
    threaded through the jumps themselves is kept in the code as well, and
    module FuncState proves the in-place version against these functions. */
module CodeGen {
  import opened LuaValue
  import opened Bytecode
  import opened Expr

  const NO_JUMP := -1

  /** FuncState: `here` is the list jpc of pending jumps to the current
      position, k the constants and kindex the table that finds them. */
  datatype FS = FS(code: seq<Instr>, k: seq<Value>, kindex: map<Value, int>,
                   here: seq<int>, lasttarget: int, freereg: int, nactvar: int)

  datatype Kind =
    | VNil | VTrue | VFalse
    | VK(i: int)
    | VKNum(n: real)
    | VLocal(reg: int)
    | VJmp(pc: int)
    | VReloc(pc: int)
    | VNonReloc(reg: int)

  /** expdesc with its two patch lists. */
  datatype Desc = Desc(k: Kind, t: seq<int>, f: seq<int>)

  /** The effect of luaK_concat on the code: the last jump of l1 is made to
      point to the first of l2. */
  function Link(c: seq<Instr>, l1: seq<int>, l2: seq<int>): (c': seq<Instr>)
    ensures |c'| == |c|
  {
    if l1 == [] || l2 == [] then c
    else var j := l1[|l1| - 1];
         if 0 <= j < |c| then c[j := Jmp(l2[0] - (j + 1))] else c
  }

  /** luaK_code: first the jumps waiting for this position are patched. */
  function Emit(fs: FS, i: Instr): FS {
    fs.(code := Patch(fs.code, fs.here, |fs.code|, NO_REG, |fs.code|) + [i], here := [])
  }

  /** luaK_jump: pending jumps to here are kept on hold in the new list. */
  function Jump(fs: FS): (FS, seq<int>) {
    var j := |fs.code|;
    (fs.(code := Link(fs.code + [Jmp(NO_JUMP)], [j], fs.here), here := []), [j] + fs.here)
  }

  function CondJump(fs: FS, i: Instr): (FS, seq<int>) {
    Jump(Emit(fs, i))
  }

  function GetLabel(fs: FS): FS {
    fs.(lasttarget := |fs.code|)
  }

  function PatchToHere(fs: FS, l: seq<int>): FS {
    fs.(lasttarget := |fs.code|, code := Link(fs.code, fs.here, l), here := fs.here + l)
  }

  /** luaK_nil can extend a LOADNIL that ends the current basic block. */
  predicate CanExtendNil(fs: FS, from: int) {
    && |fs.code| > fs.lasttarget
    && |fs.code| > 0
    && var p := fs.code[|fs.code| - 1];
       p.LoadNil? && p.a <= from <= p.b + 1
  }

  function EmitNil(fs: FS, from: int, n: int): FS {
    if |fs.code| > fs.lasttarget && |fs.code| == 0 && from >= fs.nactvar then fs
    else if CanExtendNil(fs, from) then
      var p := fs.code[|fs.code| - 1];
      if from + n - 1 > p.b
      then fs.(code := fs.code[|fs.code| - 1 := LoadNil(p.a, from + n - 1)]) else fs
    else Emit(fs, LoadNil(from, from + n - 1))
  }

  function AddK(fs: FS, v: Value): (FS, int) {
    if v in fs.kindex then (fs, fs.kindex[v])
    else (fs.(k := fs.k + [v], kindex := fs.kindex[v := |fs.k|]), |fs.k|)
  }

  function Reserve(fs: FS, n: int): FS {
    fs.(freereg := fs.freereg + n)
  }

  function FreeReg(fs: FS, reg: int): FS {
    if reg >= fs.nactvar then fs.(freereg := fs.freereg - 1) else fs
  }

  function FreeExp(fs: FS, e: Desc): FS {
    if e.k.VNonReloc? then FreeReg(fs, e.k.reg) else fs
  }

  function DischargeVars(e: Desc): Desc {
    if e.k.VLocal? then e.(k := VNonReloc(e.k.reg)) else e
  }

  function SetArgA(c: seq<Instr>, pc: int, reg: int): (c': seq<Instr>)
    ensures |c'| == |c|
  {
    if 0 <= pc < |c| && c[pc].Not? then c[pc := Not(reg, c[pc].b)] else c
  }

  function DischargeToReg(fs: FS, e0: Desc, reg: int): (FS, Desc) {
    var e := DischargeVars(e0);
    match e.k
    case VNil => (EmitNil(fs, reg, 1), e.(k := VNonReloc(reg)))
    case VFalse => (Emit(fs, LoadBool(reg, false, false)), e.(k := VNonReloc(reg)))
    case VTrue => (Emit(fs, LoadBool(reg, true, false)), e.(k := VNonReloc(reg)))
    case VK(i) => (Emit(fs, LoadK(reg, i)), e.(k := VNonReloc(reg)))
    case VKNum(n) =>
      var (fs1, i) := AddK(fs, Number(Fin(n)));
      (Emit(fs1, LoadK(reg, i)), e.(k := VNonReloc(reg)))
    case VReloc(pc) => (fs.(code := SetArgA(fs.code, pc, reg)), e.(k := VNonReloc(reg)))
    case VNonReloc(r) =>
      (if reg != r then Emit(fs, Move(reg, r)) else fs, e.(k := VNonReloc(reg)))
    case VJmp(_) => (fs, e)
    case VLocal(_) => (fs, e)
  }

  function DischargeToAnyReg(fs: FS, e: Desc): (FS, Desc) {
    if e.k.VNonReloc? then (fs, e)
    else DischargeToReg(Reserve(fs, 1), e, fs.freereg)
  }

  /** need_value: some jump of the list carries no value. */
  predicate NeedValue(c: seq<Instr>, l: seq<int>) {
    exists j :: j in l && 0 <= j < |c| && !Carries(c, j)
  }

  /** A jump over the two LOADBOOLs, unless the value is itself a jump. */
  function SkipBools(fs: FS, isJmp: bool): (FS, seq<int>) {
    if isJmp then (fs, []) else Jump(fs)
  }

  function LoadBools(fs: FS, reg: int): FS {
    var fs1 := Emit(GetLabel(fs), LoadBool(reg, false, true));
    Emit(GetLabel(fs1), LoadBool(reg, true, false))
  }

  /** The second half of exp2reg, once a closing jump is in list t. */
  function CloseLists(fs: FS, isJmp: bool, t: seq<int>, f: seq<int>, reg: int): FS {
    if t == [] && f == [] then fs
    else if NeedValue(fs.code, t) || NeedValue(fs.code, f) then
      var (fs1, fj) := SkipBools(fs, isJmp);
      var pf := |fs1.code|;
      PatchLists(GetLabel(PatchToHere(LoadBools(fs1, reg), fj)), t, f, reg, pf, pf + 1)
    else PatchLists(GetLabel(fs), t, f, reg, NO_JUMP, NO_JUMP)
  }

  function PatchLists(fs: FS, t: seq<int>, f: seq<int>, reg: int, pf: int, pt: int): FS {
    var end := |fs.code|;
    fs.(code := Patch(Patch(fs.code, f, end, reg, pf), t, end, reg, pt))
  }

  function Exp2Reg(fs: FS, e: Desc, reg: int): (FS, Desc) {
    var (fs1, e1) := DischargeToReg(fs, e, reg);
    var fs2 := if e1.k.VJmp? then fs1.(code := Link(fs1.code, e1.t, [e1.k.pc])) else fs1;
    var t := if e1.k.VJmp? then e1.t + [e1.k.pc] else e1.t;
    (CloseLists(fs2, e1.k.VJmp?, t, e1.f, reg), Desc(VNonReloc(reg), [], []))
  }

  function Exp2NextReg(fs: FS, e0: Desc): (FS, Desc) {
    var e := DischargeVars(e0);
    var fs1 := Reserve(FreeExp(fs, e), 1);
    Exp2Reg(fs1, e, fs1.freereg - 1)
  }

  predicate HasJumps(e: Desc) {
    e.t != [] || e.f != []
  }

  function Exp2AnyReg(fs: FS, e0: Desc): (FS, Desc) {
    var e := DischargeVars(e0);
    if e.k.VNonReloc? && !HasJumps(e) then (fs, e)
    else if e.k.VNonReloc? && e.k.reg >= fs.nactvar then Exp2Reg(fs, e, e.k.reg)
    else Exp2NextReg(fs, e)
  }

  function Exp2Val(fs: FS, e: Desc): (FS, Desc) {
    if HasJumps(e) then Exp2AnyReg(fs, e) else (fs, DischargeVars(e))
  }

  predicate IsConst(k: Kind) {
    k.VNil? || k.VTrue? || k.VFalse? || k.VKNum?
  }

  function ConstValue(k: Kind): Value
    requires IsConst(k)
  {
    match k
    case VNil => Nil
    case VTrue => Boolean(true)
    case VFalse => Boolean(false)
    case VKNum(n) => Number(Fin(n))
  }

  /** luaK_exp2RK: the descriptor becomes VK or VNonReloc. */
  function Exp2RK(fs: FS, e0: Desc): (FS, Desc) {
    var (fs1, e) := Exp2Val(fs, e0);
    if IsConst(e.k) && |fs1.k| <= MAXINDEXRK then
      var (fs2, i) := AddK(fs1, ConstValue(e.k));
      (fs2, e.(k := VK(i)))
    else if e.k.VK? && e.k.i <= MAXINDEXRK then (fs1, e)
    else Exp2AnyReg(fs1, e)
  }

  function OperandOf(e: Desc): RK {
    match e.k
    case VK(i) => K(i)
    case VNonReloc(r) => R(r)
    case _ => R(NO_REG)
  }

  function InvertJump(c: seq<Instr>, pc: int): (c': seq<Instr>)
    ensures |c'| == |c|
  {
    if 1 <= pc <= |c| && c[pc - 1].Comp?
    then c[pc - 1 := c[pc - 1].(cond := !c[pc - 1].cond)] else c
  }

  function JumpOnCond(fs: FS, e: Desc, cond: bool): (FS, seq<int>) {
    if e.k.VReloc? && 0 <= e.k.pc < |fs.code| && fs.code[e.k.pc].Not? then
      var i := fs.code[e.k.pc];
      CondJump(fs.(code := fs.code[..|fs.code| - 1]), Test(i.b, !cond))
    else
      var (fs1, e1) := DischargeToAnyReg(fs, e);
      CondJump(FreeExp(fs1, e1), TestSet(NO_REG, if e1.k.VNonReloc? then e1.k.reg else 0, cond))
  }

  /** The jump of luaK_goiftrue out of the value itself, when it is false. */
  function JumpIfFalse(fs: FS, e: Desc): (FS, seq<int>) {
    if e.k.VK? || e.k.VKNum? || e.k.VTrue? then (fs, [])
    else if e.k.VFalse? then Jump(fs)
    else if e.k.VJmp? then (fs.(code := InvertJump(fs.code, e.k.pc)), [e.k.pc])
    else JumpOnCond(fs, e, false)
  }

  /** The jump of luaK_goiffalse out of the value itself, when it is true. */
  function JumpIfTrue(fs: FS, e: Desc): (FS, seq<int>) {
    if e.k.VNil? || e.k.VFalse? then (fs, [])
    else if e.k.VTrue? then Jump(fs)
    else if e.k.VJmp? then (fs, [e.k.pc])
    else JumpOnCond(fs, e, true)
  }

  /** The jump goes to the end of list `keep`; list `close` ends here. */
  function JoinLists(fs: FS, keep: seq<int>, l: seq<int>, close: seq<int>): FS {
    PatchToHere(fs.(code := Link(fs.code, keep, l)), close)
  }

  function GoIfTrue(fs: FS, e0: Desc): (FS, Desc) {
    var e := DischargeVars(e0);
    var (fs1, l) := JumpIfFalse(fs, e);
    (JoinLists(fs1, e.f, l, e.t), Desc(e.k, [], e.f + l))
  }

  function GoIfFalse(fs: FS, e0: Desc): (FS, Desc) {
    var e := DischargeVars(e0);
    var (fs1, l) := JumpIfTrue(fs, e);
    (JoinLists(fs1, e.t, l, e.f), Desc(e.k, e.t + l, []))
  }

  /** The part of codenot that treats the value itself. */
  function NegateValue(fs: FS, e: Desc): (FS, Kind) {
    match e.k
    case VNil => (fs, VTrue)
    case VFalse => (fs, VTrue)
    case VK(_) => (fs, VFalse)
    case VKNum(_) => (fs, VFalse)
    case VTrue => (fs, VFalse)
    case VJmp(pc) => (fs.(code := InvertJump(fs.code, pc)), e.k)
    case _ =>
      var (fs1, e1) := DischargeToAnyReg(fs, e);
      var fs2 := FreeExp(fs1, e1);
      (Emit(fs2, Not(0, if e1.k.VNonReloc? then e1.k.reg else 0)), VReloc(|fs2.code|))
  }

  function CodeNot(fs: FS, e0: Desc): (FS, Desc) {
    var e := DischargeVars(e0);
    var (fs1, k) := NegateValue(fs, e);
    (fs1.(code := DropValues(DropValues(fs1.code, e.t), e.f)), Desc(k, e.f, e.t))
  }

  function OpcodeOf(op: BinCmp): (CmpOp, bool) {
    match op
    case Eq => (OpEq, true)
    case Ne => (OpEq, false)
    case Lt => (OpLt, true)
    case Le => (OpLe, true)
    case Gt => (OpLt, false)
    case Ge => (OpLe, false)
  }

  /** The instruction of codecomp: `>` and `>=` exchange the operands. */
  function CompInstr(op: BinCmp, o1: RK, o2: RK): Instr {
    var (m, cond) := OpcodeOf(op);
    if !cond && m != OpEq then Comp(m, true, o2, o1) else Comp(m, cond, o1, o2)
  }

  function CodeComp(fs: FS, op: BinCmp, e1: Desc, e2: Desc): (FS, Desc) {
    var (fs1, d1) := Exp2RK(fs, e1);
    var (fs2, d2) := Exp2RK(fs1, e2);
    var fs3 := FreeExp(FreeExp(fs2, d2), d1);
    var (fs4, l) := CondJump(fs3, CompInstr(op, OperandOf(d1), OperandOf(d2)));
    (fs4, Desc(VJmp(l[0]), d1.t, d1.f))
  }

  /** The order in which subexpr drives the generator over a parse tree. */
  function Compile(fs: FS, e: Expr): (FS, Desc)
    decreases e
  {
    match e
    case ENil => (fs, Desc(VNil, [], []))
    case ETrue => (fs, Desc(VTrue, [], []))
    case EFalse => (fs, Desc(VFalse, [], []))
    case ENum(n) => (fs, Desc(VKNum(n), [], []))
    case ELocal(x) => (fs, Desc(VLocal(x), [], []))
    case ENot(a) =>
      var (fs1, d) := Compile(fs, a);
      CodeNot(fs1, d)
    case EAnd(a, b) =>
      var (fs1, d1) := Compile(fs, a);
      var (fs2, d2) := GoIfTrue(fs1, d1);
      var (fs3, d3) := Compile(fs2, b);
      (fs3.(code := Link(fs3.code, d3.f, d2.f)), DischargeVars(d3).(f := d3.f + d2.f))
    case EOr(a, b) =>
      var (fs1, d1) := Compile(fs, a);
      var (fs2, d2) := GoIfFalse(fs1, d1);
      var (fs3, d3) := Compile(fs2, b);
      (fs3.(code := Link(fs3.code, d3.t, d2.t)), DischargeVars(d3).(t := d3.t + d2.t))
    case ECmp(op, a, b) =>
      var (fs1, d1) := Compile(fs, a);
      var (fs2, d2) := Exp2RK(fs1, d1);
      var (fs3, d3) := Compile(fs2, b);
      CodeComp(fs3, op, d2, d3)
  }

  /** A `return` statement with one expression. */
  function CompileReturn(fs: FS, e: Expr): FS {
    var (fs1, d) := Compile(fs, e);
    var (fs2, d2) := Exp2AnyReg(fs1, d);
    Emit(fs2, Return(if d2.k.VNonReloc? then d2.k.reg else 0))
  }

  /** An assignment of one expression to a local variable. */
  function CompileAssign(fs: FS, x: int, e: Expr): FS {
    var (fs1, d) := Compile(fs, e);
    Exp2Reg(FreeExp(fs1, d), d, x).0
  }
}
