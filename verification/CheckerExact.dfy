/** Exactly which prototypes luaG_checkcode accepts, said of the machine: what
    an instruction touches, where control goes, and which operands it does not
    use. */
module CheckerExact {
  import opened Checker

  /** The operands that an instruction has no use for are zero, and the
      register A exists even where it is not used. TEST has a B that is not
      used but must be a register. */
  predicate UnusedOK(pt: Proto, w: Word) {
    && InReg(pt, w.a)
    && (w.op == OP_TEST ==> InReg(pt, w.b))
    && (w.op == OP_TFORLOOP || w.op == OP_CLOSE ==> w.b == 0)
    && (NoC(w.op) ==> w.c == 0)
  }

  predicate NoC(op: int) {
    op == OP_MOVE || op == OP_LOADNIL || op == OP_GETUPVAL || op == OP_SETUPVAL || op == OP_UNM || op == OP_NOT
    || op == OP_LEN || op == OP_RETURN || op == OP_CLOSE || op == OP_VARARG
  }

  predicate BeforeJump(op: int) {
    op == OP_EQ || op == OP_LT || op == OP_LE || op == OP_TEST || op == OP_TESTSET || op == OP_TFORLOOP
  }

  /** The next instruction takes all values up to the top of the stack. */
  predicate TakesAll(pt: Proto, pc: int)
    requires 0 <= pc < |pt.code|
  {
    && pc + 1 < |pt.code| && pt.code[pc + 1].b == 0
    && var op := pt.code[pc + 1].op; op == OP_CALL || op == OP_TAILCALL || op == OP_RETURN || op == OP_SETLIST
  }

  /** An instruction that leaves values up to the top has one that takes them. */
  predicate OpenFormsOK(pt: Proto, pc: int)
    requires 0 <= pc < |pt.code|
  {
    var w := pt.code[pc];
    && ((w.op == OP_CALL || w.op == OP_TAILCALL) && w.c == 0 ==> TakesAll(pt, pc))
    && (w.op == OP_VARARG && w.b == 0 ==> TakesAll(pt, pc))
  }

  /** What else the instruction set asks for: tests stand before jumps, for
      loops over iterators have a result, and `...` is used only in functions
      that have it and keep it on the stack. */
  predicate FormOK(pt: Proto, pc: int)
    requires 0 <= pc < |pt.code|
  {
    var w := pt.code[pc];
    && (BeforeJump(w.op) ==> pc + 1 < |pt.code| && pt.code[pc + 1].op == OP_JMP)
    && (w.op == OP_TFORLOOP ==> w.c > 0)
    && (w.op == OP_VARARG ==> pt.isVararg && !pt.needsArg)
  }

  /** Control goes on to an instruction, unless a LOADBOOL skips with a C other
      than 1, at which the checker does not look. */
  ghost predicate GoesOn(pt: Proto, pc: int)
    requires Inside(pt, pc)
  {
    !OddSkip(pt, pc) ==> forall q :: Succ(pt, pc, q) ==> Inside(pt, q)
  }

  ghost predicate SoundAt(pt: Proto, pc: int)
    requires Inside(pt, pc)
  {
    UnusedOK(pt, pt.code[pc]) && OperandsInBounds(pt, pc) && OpenFormsOK(pt, pc) && FormOK(pt, pc) && GoesOn(pt, pc)
  }

  /** The sizes in the prototype fit together, and it ends in a RETURN. */
  predicate SizesOK(pt: Proto) {
    && pt.maxstacksize <= 250
    && (if pt.hasArg then pt.numparams < pt.maxstacksize else pt.numparams <= pt.maxstacksize)
    && (pt.needsArg ==> pt.hasArg)
    && pt.nups >= pt.sizeupvalues
    && (pt.sizelineinfo != 0 ==> pt.sizelineinfo == |pt.code|)
    && pt.code != [] && pt.code[|pt.code| - 1].op == OP_RETURN
  }

  /** luaG_checkcode accepts a prototype if and only if its sizes fit and every
      instruction of it is sound. */
  lemma AcceptsExactly(pt: Proto)
    ensures Accepts(pt) <==> SizesOK(pt) && forall pc :: Inside(pt, pc) ==> SoundAt(pt, pc)
  {
    hide Checked, OperandsInBounds, Succ;
    if Accepts(pt) {
      forall pc | Inside(pt, pc) ensures SoundAt(pt, pc) { AcceptedSound(pt, pc); }
    }
    if SizesOK(pt) && forall pc :: Inside(pt, pc) ==> SoundAt(pt, pc) {
      forall pc | 0 <= pc < |pt.code| && Real(pt.code, pc) ensures Checked(pt, pc) {
        assert Inside(pt, pc) && SoundAt(pt, pc);
        SoundChecked(pt, pc);
      }
    }
  }

  lemma AcceptedSound(pt: Proto, pc: int)
    requires Accepts(pt) && Inside(pt, pc)
    ensures SoundAt(pt, pc)
  {
    OperandsSound(pt, pc);
    if !OddSkip(pt, pc) {
      forall q | Succ(pt, pc, q) ensures Inside(pt, q) { StepSound(pt, pc, q); }
    }
    hide OperandsInBounds, Succ;
    assert Checked(pt, pc);
  }

  lemma SoundChecked(pt: Proto, pc: int)
    requires SizesOK(pt) && Inside(pt, pc) && SoundAt(pt, pc)
    ensures Checked(pt, pc)
  {
    SoundOperands(pt, pc);
    SoundSkip(pt, pc);
    SoundOp(pt, pc);
  }

  lemma SoundOperands(pt: Proto, pc: int)
    requires SizesOK(pt) && Inside(pt, pc) && SoundAt(pt, pc)
    ensures OperandsChecked(pt, pc)
  {
    var w := pt.code[pc];
    if ModeOf(w.op) == IAsBx {
      var q := pc + 1 + w.SBx();
      assert Succ(pt, pc, q) && Inside(pt, q);
      ParityExact(pt.code, q);
    }
    if w.op == OP_CONCAT { assert InReg(pt, w.b) && InReg(pt, w.c); }
  }

  lemma SoundSkip(pt: Proto, pc: int)
    requires SizesOK(pt) && Inside(pt, pc) && SoundAt(pt, pc)
    ensures SkipChecked(pt, pc)
  {
    hide OperandsInBounds;
    var w := pt.code[pc];
    if IsTestOp(w.op) || (w.op == OP_LOADBOOL && w.c == 1) {
      assert Succ(pt, pc, pc + 2) && Inside(pt, pc + 2);
      assert Real(pt.code, pc + 1);
    }
  }

  lemma SoundOp(pt: Proto, pc: int)
    requires SizesOK(pt) && Inside(pt, pc) && SoundAt(pt, pc)
    ensures OpChecked(pt, pc)
  {
    var w, n := pt.code[pc], |pt.code|;
    if w.op == OP_SETLIST && w.c == 0 { assert Succ(pt, pc, pc + 2) && Inside(pt, pc + 2); }
    if (w.op == OP_CALL || w.op == OP_TAILCALL) && w.b != 0 { assert InReg(pt, w.a + w.b - 1); }
    if (w.op == OP_CALL || w.op == OP_TAILCALL) && w.c > 1 { assert InReg(pt, w.a + w.c - 2); }
    if w.op == OP_RETURN && w.b > 1 { assert InReg(pt, w.a + w.b - 2); }
    if w.op == OP_VARARG && w.b > 1 { assert InReg(pt, w.a + w.b - 2); }
    if w.op == OP_SETLIST && w.b > 0 { assert InReg(pt, w.a + w.b); }
    if w.op == OP_FORLOOP || w.op == OP_FORPREP { assert InReg(pt, w.a + 3); }
    if w.op == OP_TFORLOOP { assert InReg(pt, w.a + 2 + w.c); }
    if w.op == OP_CLOSURE {
      forall i | pc < i <= pc + pt.protoNups[w.Bx()] ensures pt.code[i].op == OP_GETUPVAL || pt.code[i].op == OP_MOVE {
        assert CaptureInBounds(pt, pt.code[i]);
      }
    }
  }

  /** `return a..b` is accepted. */
  lemma AcceptsConcat()
    ensures var code := [Word(OP_CONCAT, 0, 0, 1), Word(OP_RETURN, 0, 2, 0)];
            Accepts(Proto(code, [], [], 0, 2, 2, false, false, false, 0, 2))
  {
  }

  /** The largest stack is 250 registers. */
  lemma AcceptsLargest(n: nat)
    ensures Accepts(Proto([Word(OP_RETURN, 0, 1, 0)], [], [], 0, n, 0, false, false, false, 0, 1)) <==> 1 <= n <= 250
  {
    var pt := Proto([Word(OP_RETURN, 0, 1, 0)], [], [], 0, n, 0, false, false, false, 0, 1);
    assert Real(pt.code, 0);
  }

  // ---------------------------------------------------------------------
  // Functions of two instructions, in numbers

  /** One instruction and a RETURN, with n registers, one upvalue, and the
      constants ks, true for strings. */
  function Two(w: Word, n: nat, ks: seq<bool>): Proto {
    Proto([w, Word(OP_RETURN, 0, 1, 0)], ks, [], 1, n, 0, true, true, false, 0, 0)
  }

  predicate RegOrConst(x: nat, n: nat, ks: seq<bool>) {
    x < n || (256 <= x && x - 256 < |ks|)
  }

  /** What the fields of the instruction have to be. Instructions that jump or
      skip have nowhere to go in two instructions. */
  predicate Fine(w: Word, n: nat, ks: seq<bool>) {
    var a, b, c, bx := w.a, w.b, w.c, w.b * 512 + w.c;
    if w.op == OP_MOVE || w.op == OP_LOADNIL || w.op == OP_UNM || w.op == OP_NOT || w.op == OP_LEN then b < n && c == 0
    else if w.op == OP_LOADK then bx < |ks|
    else if w.op == OP_LOADBOOL then c != 1
    else if w.op == OP_GETUPVAL || w.op == OP_SETUPVAL then b == 0 && c == 0
    else if w.op == OP_GETGLOBAL || w.op == OP_SETGLOBAL then bx < |ks| && ks[bx]
    else if w.op == OP_GETTABLE then b < n && RegOrConst(c, n, ks)
    else if w.op == OP_SETTABLE || OP_ADD <= w.op <= OP_POW then RegOrConst(b, n, ks) && RegOrConst(c, n, ks)
    else if w.op == OP_NEWTABLE then true
    else if w.op == OP_SELF then a + 1 < n && b < n && RegOrConst(c, n, ks)
    else if w.op == OP_CONCAT then b < c < n
    else if w.op == OP_CALL || w.op == OP_TAILCALL then (b > 0 ==> a + b <= n) && c > 0 && (c > 1 ==> a + c <= n + 1)
    else if w.op == OP_RETURN then (b > 1 ==> a + b <= n + 1) && c == 0
    else if w.op == OP_SETLIST then a + b < n && c > 0
    else if w.op == OP_CLOSE then b == 0 && c == 0
    else if w.op == OP_VARARG then 0 < b && a + b <= n + 1 && c == 0
    else false
  }

  lemma FirstChecked(w: Word, n: nat, ks: seq<bool>)
    requires w.op != OP_JMP && w.op != OP_FORLOOP && w.op != OP_FORPREP && 1 <= n <= 250
    ensures Checked(Two(w, n, ks), 0) <==> w.a < n && Fine(w, n, ks)
  {
    var pt := Two(w, n, ks);
    assert pt.code[1] == Word(OP_RETURN, 0, 1, 0);
  }

  lemma SecondChecked(w: Word, n: nat, ks: seq<bool>)
    ensures Checked(Two(w, n, ks), 1) <==> n > 0
  {
    hide Real, Fine;
    assert Two(w, n, ks).code[1] == Word(OP_RETURN, 0, 1, 0);
  }

  /** Accepted are exactly the functions with such an instruction whose A is a
      register, and with 1 to 250 registers. */
  lemma TwoAccepted(w: Word, n: nat, ks: seq<bool>)
    requires w.op != OP_JMP && w.op != OP_FORLOOP && w.op != OP_FORPREP
    ensures Accepts(Two(w, n, ks)) <==> 1 <= n <= 250 && w.a < n && Fine(w, n, ks)
  {
    hide Checked, Fine;
    var pt := Two(w, n, ks);
    SecondChecked(w, n, ks);
    if 1 <= n <= 250 { FirstChecked(w, n, ks); }
    assert Real(pt.code, 0);
    if n == 0 && Accepts(pt) { NoRegisters(w, ks); }
  }

  /** Jumps stay inside, and for loops have four registers. */
  lemma JumpAccepted(w: Word, n: nat)
    requires w.op == OP_JMP || w.op == OP_FORLOOP || w.op == OP_FORPREP
    ensures Accepts(Two(w, n, [])) <==>
            && 1 <= n <= 250 && (if w.op == OP_JMP then w.a < n else w.a + 3 < n)
            && (w.SBx() == -1 || w.SBx() == 0)
  {
    var pt := Two(w, n, []);
    assert Real(pt.code, 0) && Real(pt.code, 1);
    SecondChecked(w, n, []);
    var dest := 1 + w.SBx();
    if 0 <= dest < 2 { ParityExact(pt.code, dest); }
  }

  /** A test, a jump and a RETURN. */
  function Three(w: Word, j: Word, n: nat, ks: seq<bool>): Proto {
    Proto([w, j, Word(OP_RETURN, 0, 1, 0)], ks, [], 1, n, 0, true, true, false, 0, 0)
  }

  predicate TestFine(w: Word, n: nat, ks: seq<bool>) {
    if w.op == OP_TFORLOOP then w.b == 0 && w.c >= 1 && w.a + 2 + w.c < n
    else if w.op == OP_TEST || w.op == OP_TESTSET then w.b < n
    else RegOrConst(w.b, n, ks) && RegOrConst(w.c, n, ks)
  }

  /** Tests stand before a jump. */
  lemma TestAccepted(w: Word, j: Word, n: nat, ks: seq<bool>)
    requires BeforeJump(w.op) && 1 <= n <= 250
    ensures Accepts(Three(w, j, n, ks)) <==>
            && w.a < n && TestFine(w, n, ks) && j.op == OP_JMP && j.a < n && -2 <= j.SBx() <= 0
  {
    var pt := Three(w, j, n, ks);
    assert Real(pt.code, 0) && Real(pt.code, 1);
    if j.op == OP_JMP {
      assert Real(pt.code, 2);
      var dest := 2 + j.SBx();
      if 0 <= dest < 3 { ParityExact(pt.code, dest); }
      JumpChecked(w, j, n, ks);
    }
    TestChecked(w, j, n, ks);
    hide TestFine, Real;
    assert pt.code[2] == Word(OP_RETURN, 0, 1, 0);
    assert Checked(pt, 2);
    hide Checked;
    if j.op != OP_JMP { assert !Checked(pt, 0); }
  }

  lemma TestChecked(w: Word, j: Word, n: nat, ks: seq<bool>)
    requires BeforeJump(w.op) && 1 <= n <= 250
    ensures Checked(Three(w, j, n, ks), 0) <==> w.a < n && TestFine(w, n, ks) && j.op == OP_JMP
  {
    hide Real;
    assert Three(w, j, n, ks).code[1] == j;
  }

  lemma JumpChecked(w: Word, j: Word, n: nat, ks: seq<bool>)
    requires BeforeJump(w.op) && j.op == OP_JMP
    ensures Checked(Three(w, j, n, ks), 1) <==> j.a < n && -2 <= j.SBx() <= 0
  {
    var pt := Three(w, j, n, ks);
    var dest := 2 + j.SBx();
    assert Real(pt.code, 0) && Real(pt.code, 1) && Real(pt.code, 2);
    if 0 <= dest < 3 { ParityExact(pt.code, dest); }
  }

  lemma NoRegisters(w: Word, ks: seq<bool>)
    ensures !Checked(Two(w, 0, ks), 0)
  {
    hide Real, Fine;
  }
}
