# A verified model of a Lua 5.1 core and its message layer

The repository is a small socket and message layer in C++ (`NetMessage.cpp`,
`ConnectionManager.cpp`) over the Lua 5.1.5 core in `lua/src`. This project
models the parts of it that are hard to get right and proves, with Dafny, what
they are for:

- **Expression code generator** (`LuaValue`, `Bytecode`, `Expr`, `CodeGen*`,
  `Delivery*`, `FuncState`). Jump lists threaded through unpatched jumps, late
  patching of TESTSET to TEST and closing by exp2reg: the compiled code, run by
  the virtual machine, delivers the value of the expression. Where it does not,
  the exact family of failing expressions is characterised. `CodeGenMeaning`
  says what the compiled operators return in terms of the reals and of truth
  alone.
- **Incremental garbage collector** (`Gc*`). The state machine of `lgc.c`
  interleaved with allocation, stores, barriers, upvalue closing and string
  interning: the colour invariant, no reachable object freed in any run, and
  what exactly a full collection keeps (`GcBound`, `GcSeen`), clears in weak
  tables (`GcExact`) and finalizes (`GcFinal`).
- **Tables** (`TableHash`, `TableSize`, `Table`, `TableRuns`). The chained
  scatter table with Brent's variation agrees with a finite map over every run;
  sizing, traversal and length.
- **Bytecode checker** (`Checker`, `CheckerExact`). Soundness of symbexec over
  all runs, with the exact condition under which it holds, and what exactly it
  accepts.
- **Pattern matcher** (`Pattern*`, `Matcher`, `Find`). The backtracking matcher
  returns the first match of a declarative semantics; reading a pattern inverts
  writing it (`PatternText`), and what the items match is said in plain terms
  (`PatternLaws`).
- **Upvalues** (inside `Gc`), **dump and undump** (`Zio`, `Dump*`),
  **quicksort** (`Sort`), **%q and the lexer** (`Quote*`), **operator
  priorities** (`Precedence*`).
- **Message framing and codec** (`Codec*`, `Message`, `Connection`,
  `ConnectionRuns`, `Exchange`). Any run of updates and loads on any bytes, and
  exactly when it delivers what was sent.

Code that changes state in place is modelled by classes and arrays whose
methods are proved against specification functions; the theorems are about
those functions and about whole runs of the methods. What a specification
function means is said again without it, in `LuaValue` and in the modules named
`...Laws`, `...Exact`, `...Text`, `...Format` and `...Meaning`. The command
`dafny verify dfyconfig.toml` checks the whole project.

## Where the code differs from what it promises

- *Wrong value for a constant operand.* luaK_goiftrue on `false` and
  luaK_goiffalse on `true` emit a bare jump (`lua/src/lcode.c:547-550`,
  `lua/src/lcode.c:575-578`), and luaK_jump takes over the jumps on hold without
  dropping the values they carry (`lua/src/lcode.c:59-66`). So
  `(x or y) and false and z` returns x. `RunExact` and `ReturnExact` say exactly
  which runs are affected, `Safe` is a test on the expression alone that shuts
  the whole family out, and `CondTurns` shows that conditions branch rightly
  anyway.
- *Unchecked LOADBOOL skip.* symbexec looks at the skip of LOADBOOL only for
  C = 1 (`lua/src/ldebug.c:374-380`), the machine skips for every C other than 0
  (`lua/src/lvm.c:415-418`). `ClosedExactly` gives the exact condition,
  `AcceptedButLeaves` an accepted function that a run leaves.
- *Header reads.* getReadCap asks for the whole header whatever has arrived of
  it (`NetMessage.cpp:76-83`). A read that crosses the end of a header leaves
  the message waiting for ever. `ReceiveLoop` with `ReadFrames` shows that
  nothing else goes wrong on a stream of frames, and `CrossingInput` is an input
  on which it does. Nothing checks the room in the buffer of such a message
  either: once its buffer is full, the next Recv of Update writes behind it.
- *Early loads.* LoadMsg takes and removes the first message without asking
  whether it is complete (`LuaMsg.cpp:26-36`), and from an empty list it goes on
  with a null pointer; only hasPendingMsg asks (`eng_socket.cpp:135-147`), if
  the program calls it. The rest of a message loaded early is read as the start
  of another one, as in `EarlyInput`. `DeliveredExactly` has the exact
  condition. A program that loads only after hasPendingMsg (the event `PollMsg`)
  always meets its part of it.
- *Array size.* The comment at `lua/src/ltable.c:11-13` asks for at least half
  of the array part to be in use; the code demands more than half, and
  `ComputeSizes` follows the code.

## Model

| member | source | states |
|---|---|---|
| CodeGenTheorems.ReturnDelivers | lua/src/lcode.c:390-411 | For every expression of the subset and all arguments, the function compiled from `return e` runs to its RETURN with the value that `Delivery.WayOf` assigns to the expression, or stops with the order error; no jump is on hold at the end. |
| CodeGenTheorems.ReturnExact | lua/src/lcode.c:390-411 | The compiled function returns the meaning of section 2.5.3 of the Lua 5.1 Reference Manual if and only if its run does not end at a constant `false` before `and` (`true` before `or`) that it reached holding another value, provided every comparison of the run has the outcome it would have without held values. |
| CodeGenTheorems.ReturnCorrect | lua/src/lcode.c:516-626 | A test on the expression alone, `Safe`, under which the compiled function returns the meaning for all arguments. |
| CodeGenMeaning.ReturnComparison | lua/src/lvm.c:541-569 | The compiled `return x op y` gives, for all finite numbers and all six operators, the truth of the relation of the reals. |
| CodeGenMeaning.ReturnWithConstant | lua/src/lcode.c:444-469 | The same with a constant operand. |
| CodeGenMeaning.ReturnNaN | lua/src/lvm.c:225-265 | With NaN on either side only ~= is true. |
| CodeGenMeaning.ReturnMixed | lua/src/lvm.c:225-265 | Unless both are numbers, == and ~= tell identity and the others raise an error. |
| CodeGenMeaning.ReturnLogic | lua/src/lvm.c:509-585 | `not` gives a boolean, `and` and `or` one of their operands, for all values. |
| CodeGenMeaning.ReturnBoolean | lua/src/lcode.c:343-379 | The constants true and false. |
| CodeGenMeaning.ReturnConstant | lua/src/lcode.c:594-626 | nil, numbers and the negation of constants, which is folded. |
| CodeGenMeaning.ReturnShortCut | lua/src/lcode.c:539-591 | The right operand is evaluated, with its error, exactly if the left one does not decide. |
| LuaValue.OrderOfReals | lua/src/lvm.c:225-265 | On finite numbers the comparisons are those of the reals, and <= is < or ==. |
| LuaValue.Trichotomy | lua/src/lvm.c:225-265 | Exactly one of <, == and > holds of finite numbers. |
| LuaValue.Transitive | lua/src/lvm.c:225-265 | Each comparison is transitive. |
| LuaValue.NothingWithNaN | lua/src/lvm.c:225-265 | No comparison with NaN holds. |
| LuaValue.ErrorsExactly | lua/src/lvm.c:225-265 | < and <= raise an error exactly if an operand is no number; == never does. |
| LuaValue.TruthTable | lua/src/lobject.h:103-103 | Only nil and false are false. |
| CodeGenTheorems.WrongReturn | lua/src/lcode.c:539-564 | `return (x or y) and false and z` returns x whenever x is true, though it means false: the counterexample to correctness without the guard. |
| CodeGenTheorems.AssignDelivers | lua/src/lcode.c:472-500 | Storing an expression into a local leaves the delivered value in it and every other register below the free ones unchanged. |
| CodeGenTheorems.CondGoes | lua/src/lparser.c:965-972 | Any condition, compiled in any state that a run arrives at: the run falls into the block, leaves by the false list or stops with the error exactly as the delivered way says, with the active registers unchanged. |
| CodeGenTheorems.CondTurns | lua/src/lparser.c:965-972 | The run falls into the block exactly when the condition is true and leaves by the false list exactly when it is false or nil, also where its value would be delivered wrongly, unless a comparison came out wrong. |
| CodeGenTheorems.ReturnRun | lua/src/lparser.c:1238-1268 | Emitting RETURN turns the arrival of a run into its result, whatever jumps wait for that instruction. |
| DeliveryExact.SafeRuns | lua/src/lcode.c:516-626 | In all runs of a safe expression the comparisons come out right; they do not end held, and carry values only where the static flags say. |
| DeliveryExact.SafeDelivers | lua/src/lcode.c:516-626 | Safe expressions deliver their meaning, for every register file. |
| DeliveryExact.WrongExactly | lua/src/lcode.c:59-66 | For every expression and all registers: a wrong value implies that the run ended held or that a comparison came out wrong, and a run that ends held, with right comparisons, delivers a wrong value. |
| DeliveryExact.RunExact | lua/src/lcode.c:539-591 | In any context and for any value held on arrival: if no comparison of the run is affected by held values, every turn is right, and the value is wrong if and only if the run ends held. |
| DeliveryExact.RunSafeIs | lua/src/lcode.c:681-694 | The condition of that, which looks at no meaning, holds if and only if every comparison that the run evaluates delivers its meaning. |
| DeliveryExact.CompareExactly | lua/src/lcode.c:681-694 | A comparison whose operands may end held is wrong if and only if it tells the delivered values from the booleans they stand for. |
| DeliveryExact.WrongForTrueLeft | lua/src/lcode.c:547-550 | The family `(x or y) and false and z`: meaning false, delivered x. |
| CodeGenJumps.ReturnPatched | lua/src/lcode.c:150-196 | No jump of a compiled function is left unpatched: each one leads forward to an instruction of the function. |
| CodeGenJumps.CompileOnly | lua/src/lcode.c:697-760 | While an expression is compiled, the jumps without a target are exactly those on its two lists, on the lists of its context and on hold. |
| CodeGenStatic.CompileOK | lua/src/lcode.c:697-760 | Compiling keeps the well-formedness of code, jump lists, constants and registers, touches no jump that waits elsewhere and gives back every temporary register. |
| CodeGenStatic.LinkOK | lua/src/lcode.c:185-196 | Concatenation gives one well-formed list with the elements of both and changes no other instruction. |
| CodeGenStatic.JumpOK | lua/src/lcode.c:59-66 | The new list is the new jump followed by all jumps that were on hold, and none of them changes. |
| CodeGenStatic.CloseListsOK | lua/src/lcode.c:390-411 | Closing both lists leaves no jump of them pending and keeps all others. |
| CodeGenStatic.Exp2RKOK | lua/src/lcode.c:444-469 | An operand ends in a register or in a constant whose index fits, with the register count to match. |
| CodeGenStatic.CodeNotOK | lua/src/lcode.c:594-626 | Negation exchanges the two lists and keeps the state well formed. |
| CodeGenStatic.CodeCompOK | lua/src/lcode.c:681-694 | A comparison frees the registers of both operands and ends in a conditional jump. |
| CodeGenCorrect.CompileRun | lua/src/lcode.c:697-760 | Whatever run reaches the start of an expression, the run over the code emitted for it leaves by the way that `WayOf` predicts from the source alone, with the active registers unchanged. |
| CodeGenCorrect.CompileShape | lua/src/lcode.c:697-760 | Final descriptor kind, emptiness of each list and constant table of compiled code are functions of the source expression. |
| CodeGenWays.Exp2RegRun | lua/src/lcode.c:390-411 | exp2reg: each way of leaving (true list, false list, value in hand; with or without a carried value) arrives with the right value in the target register, nothing below it changed. |
| CodeGenWays.CloseListsRun | lua/src/lcode.c:390-411 | The two LOADBOOLs and the patched TESTSETs store exactly what each waiting run needs. |
| CodeGenLogic.LeftOperandRun | lua/src/lcode.c:539-591 | goiftrue and goiffalse: the run goes on to the right operand or leaves by the joined list, as the truth of the left operand says. |
| CodeGenLogic.JumpOutRun | lua/src/lcode.c:524-591 | The jump emitted for the left operand is taken exactly for the values it has to be taken for, and carries the operand only if it has to. |
| CodeGenLogic.CodeNotRun | lua/src/lcode.c:594-626 | After codenot every way of leaving means the negated value and carries nothing. |
| CodeGenRun.JumpRun | lua/src/lcode.c:59-66 | Runs that fall to the end leave by the new jump; runs that were on hold leave by their own jumps with the values they hold. |
| CodeGenRun.CondJumpRun | lua/src/lcode.c:74-77 | All arriving runs execute the test, and branch by it. |
| CodeGenRun.EmitNilRun | lua/src/lcode.c:35-56 | luaK_nil stores nil also when it emits nothing or extends the LOADNIL before it. |
| CodeGenRun.SettleRun | lua/src/lcode.c:163-166 | Discharging the jumps on hold makes them arrive, and drops the values they hold. |
| Bytecode.ExecIsRun | lua/src/lvm.c:407-585 | With no jump pending, execution over a stretch of code is a run of the virtual machine. |
| Bytecode.PatchExec | lua/src/lcode.c:150-160 | Patching a list redirects exactly the runs that left by it, storing the carried value if there is one. |
| Bytecode.DropExec | lua/src/lcode.c:144-147 | removevalues takes the carried value from exactly the runs that leave by the list. |
| Bytecode.ExecAgree | lua/src/lvm.c:541-585 | Execution does not depend on the offsets of pending jumps, on later code or on constants added later. |
| FuncStates.FuncState.constructor | lua/src/lparser.c:328-353 | A new function state is the empty abstract state and is valid. |
| FuncStates.FuncState.Concat | lua/src/lcode.c:185-196 | Walking the links inside the code finds the end of the first list; the result represents the concatenation. |
| FuncStates.FuncState.AnyNeedsValue | lua/src/lcode.c:122-128 | True exactly if some jump of the list carries no value. |
| FuncStates.FuncState.PatchTestReg | lua/src/lcode.c:131-141 | Changes the controlling TESTSET only, and tells whether there was one. |
| FuncStates.FuncState.PatchListAux | lua/src/lcode.c:150-160 | Patching while walking equals patching every jump of the list at once: no link is read after it was overwritten. |
| FuncStates.FuncState.RemoveValues | lua/src/lcode.c:144-147 | Every TESTSET that controls a jump of the list becomes a TEST, nothing else changes. |
| FuncStates.FuncState.DischargeJpc | lua/src/lcode.c:163-166 | The jumps on hold point to the next instruction and carry no value. |
| FuncStates.FuncState.Code | lua/src/lcode.c:797-809 | Refines the abstract emission step. |
| FuncStates.FuncState.EmitJump | lua/src/lcode.c:59-66 | Refines the abstract jump: the jumps on hold become part of the new list. |
| FuncStates.FuncState.EmitCondJump | lua/src/lcode.c:74-77 | Refines the abstract conditional jump. |
| FuncStates.FuncState.PatchHere | lua/src/lcode.c:179-182 | The list joins the jumps on hold. |
| FuncStates.FuncState.LoadNils | lua/src/lcode.c:35-56 | Refines the abstract LOADNIL step with both optimisations. |
| FuncStates.FuncState.AddConstant | lua/src/lcode.c:229-247 | The index returned holds the constant; equal constants share it. |
| FuncStates.FuncState.Discharge2Reg | lua/src/lcode.c:343-379 | Refines the abstract discharge, descriptor included. |
| FuncStates.FuncState.ToReg | lua/src/lcode.c:390-411 | Refines exp2reg and leaves none of the lists pending. |
| FuncStates.FuncState.ToNextReg | lua/src/lcode.c:414-419 | Refines exp2nextreg. |
| FuncStates.FuncState.ToAnyReg | lua/src/lcode.c:422-433 | Refines exp2anyreg. |
| FuncStates.FuncState.ToVal | lua/src/lcode.c:436-441 | Refines exp2val. |
| FuncStates.FuncState.ToRK | lua/src/lcode.c:444-469 | Refines exp2RK. |
| FuncStates.FuncState.JumpOn | lua/src/lcode.c:524-536 | Refines jumponcond, including the removal of a NOT. |
| FuncStates.FuncState.GoIf | lua/src/lcode.c:539-591 | Refines goiftrue and goiffalse. |
| FuncStates.FuncState.Negate | lua/src/lcode.c:594-626 | Refines codenot. |
| FuncStates.FuncState.Comparison | lua/src/lcode.c:681-694 | Refines codecomp, including the exchange of operands for > and >=. |
| FuncStates.FuncState.CompileExpr | lua/src/lparser.c:828-853 | The calls made for a parse tree produce the code, the descriptor and the jump lists of the abstract compiler. |
| FuncStates.FuncState.CompileReturnStat | lua/src/lparser.c:1238-1268 | The code of a whole `return e` is that of the abstract compiler, to which the theorems apply. |
| GcRuns.Run | lua/src/lgc.c:556-709 | In every run of collector and program steps from a new state on, each step has exactly its effect (`RunOne`) and leaves the invariant, and everything that the program can reach by any path from the stacks, the registry and the basic metatables is in the heap and does not carry the dead white. |
| GcRuns.RunOne | lua/src/lgc.c:556-709 | A store, a store through an upvalue, a new object, a string, a capture, the closing of upvalues or a switch of threads changes the heap just so and nothing else of it; a step of the collector changes only what a program cannot see and weak entries. |
| GcRuns.ReachableLive | lua/src/lgc.c:525-590 | In every state with the invariant, whatever a path from the roots leads to is alive. |
| GcRuns.NoBlackToWhite | lua/src/lgc.c:158-320 | While marking, a black object outside tmudata has no strong reference to a white object. |
| GcRuns.StacksNeverBlack | lua/src/lgc.c:256-320 | Threads and open upvalues are never black. |
| Gc.Collector.MarkValue | lua/src/lgc.c:52-53 | Marks the value; colours only go from white on, and what becomes black has marked what it holds. |
| Gc.Collector.ReallyMark | lua/src/lgc.c:69-112 | The recursion over userdata and upvalues ends, marks the object and keeps every colour it must not touch. |
| Gc.Collector.TraverseTable | lua/src/lgc.c:158-196 | Everything a table holds strongly, as its mode says, is marked; a weak table is put on the weak list and its dead entries are trimmed. |
| Gc.Collector.PropagateMark | lua/src/lgc.c:277-320 | Keeps the colour invariant, takes one object off what is still pending and makes progress. |
| Gc.Collector.PropagateAll | lua/src/lgc.c:323-327 | Ends with no gray object left and the colour invariant kept. |
| Gc.Collector.MarkMt | lua/src/lgc.c:493-497 | All basic metatables are marked. |
| Gc.Collector.RemarkUpvals | lua/src/lgc.c:515-522 | No open upvalue is pending any more, also those of threads that are not marked. |
| Gc.Collector.MarkTmu | lua/src/lgc.c:115-124 | All userdata that wait for their finalizer and what they hold are marked again. |
| Gc.Collector.SeparateUdata | lua/src/lgc.c:128-155 | Exactly the unmarked userdata with a finalizer that was not called yet move to tmudata; these count as finalized from then on, and no marked one does. |
| Gc.Collector.IsCleared | lua/src/lgc.c:337-345 | An entry is cleared exactly if its object is unmarked, or a finalized userdata used as value; strings are marked instead. |
| Gc.Collector.ClearTables | lua/src/lgc.c:351-375 | Weak tables lose exactly the entries that are to be cleared, and afterwards nothing that is left refers to an unmarked object. |
| Gc.Collector.Atomic | lua/src/lgc.c:525-553 | After the flip every object that is not dead refers only to objects that are not dead, all roots are marked, and nothing has been freed; weak tables have lost exactly what the law of `FullGC` says, userdata are finalized as it says, and none is freed before its finalizer has had its turn. |
| Gc.Collector.SweepStrings | lua/src/lgc.c:407-428 | One chain of the string table is swept: no live object is lost or changed. |
| Gc.Collector.SweepOpen | lua/src/lgc.c:407-428 | The open upvalues of a thread are swept; those left are white again. |
| Gc.Collector.SweepList | lua/src/lgc.c:407-428 | Sweeping part of the root list loses and changes no live object, revives no dead one, and makes progress. |
| Gc.Collector.FreeThread | lua/src/lgc.c:378-400 | The open upvalues of a dead thread are closed before it is freed, and its place on the root list is known. |
| Gc.Collector.MarkRoot | lua/src/lgc.c:501-512 | A new cycle starts with the colour invariant, for any heap the last cycle left. |
| Gc.Collector.Finalizer | lua/src/lgc.c:445-471 | A userdata returns from tmudata to the root list, white. |
| Gc.Collector.SingleStep | lua/src/lgc.c:556-607 | Every step keeps the invariant, loses no live object and brings the end of the cycle nearer; only the atomic step makes objects dead, and only those that nothing kept alive. |
| Gc.Collector.FinishSweep | lua/src/lgc.c:635-650 | A sweep begun while marking, without a flip, frees nothing; any other loses no live object. |
| Gc.Collector.FullGC | lua/src/lgc.c:635-658 | Exact, from any state: roots and all that a kept object referred to without weakness are kept; every set that holds the roots, what is fixed and what awaits a finalizer, and is closed under strong references, contains all that is kept. A weak table loses the entries whose key or value is gone and the values that are finalized userdata, and no other entry; nothing else that a program can see changes. Finalized are only userdata that strong references from the roots do not reach, and all those with a finalizer that lie outside of any closed set with the roots; none of these is freed, and no finalizer is left waiting at the end. |
| GcExact.NoFinalizedValues | lua/src/lgc.c:337-345 | After a collection no weak-valued slot and no entry of a weak table has a finalized userdata as its value. |
| GcExact.KeysAreKept | lua/src/lgc.c:337-345 | An entry stays as it was if its key and its value are left and its value is no finalized userdata; that its key is one does not matter. |
| GcExact.StrongSlotsStay | lua/src/lgc.c:351-362 | The array part of a table whose values are not weak keeps all its values, finalized userdata too. |
| GcExact.AtomicExact | lua/src/lgc.c:525-553 | What the atomic step leaves of every live table, slot by slot and entry by entry. |
| GcExact.TableCleared | lua/src/lgc.c:351-375 | What the clearing of one weak table comes to, said of the objects that stay alive. |
| GcFinal.MarkedReached | lua/src/lgc.c:525-543 | When userdata are separated, the marked objects hold the roots and all that their members refer to strongly, except through userdata that already wait. |
| GcFinal.SweptOnly | lua/src/lgc.c:635-658 | The sweep before the cycle does not make other userdata finalized. |
| GcBound.StrongTableGrips | lua/src/lgc.c:158-196 | A table that is not weak keeps all that it refers to alive. |
| GcBound.WeakTableGrips | lua/src/lgc.c:158-196 | By mode, which references of a weak table keep an object alive: the metatable always, keys unless they are weak, values unless they are weak. |
| GcBound.ModesAre | lua/src/lgc.c:158-174 | The modes and the finalizer of an object are those that its metatable says. |
| GcWrite.WriteTable | lua/src/lvm.c:134-156 | What a store does to a table: metatable, mode, slot, value and new key, and only there. |
| GcWrite.WriteOthers | lua/src/lvm.c:451-456 | What a store does to userdata, upvalues, functions and threads. |
| GcWrite.WriteElsewhere | lua/src/lgc.c:661-682 | All other objects stay. |
| GcWrite.WrittenRefers | lua/src/lgc.c:69-112 | What is stored is what the object then refers to, in every kind of field. |
| Gc.Collector.WholeCycle | lua/src/lgc.c:651-657 | The cycle after the first sweep: from a heap without dead objects to one with the same property, in pause. |
| GcBound.LiveIn | lua/src/lgc.c:525-553 | After the flip only objects of a closed set that holds all roots are alive: nothing is marked without reason. |
| GcBound.SweptRetains | lua/src/lgc.c:407-428 | A sweep does not make anything reachable that was not. |
| GcSeen.AtomicGrips | lua/src/lgc.c:525-553 | What an object that survives the flip refers to without weakness survives it, weak modes taken from the metatables. |
| GcSeen.AtomicSeen | lua/src/lgc.c:351-375 | The atomic step changes nothing that a program can see but weak entries of dead or finalized objects. |
| Gc.Collector.SetField | lua/src/lgc.c:661-682 | A store with its barrier (forward, backward or none) keeps the invariant in every phase, and no live object dies. |
| Gc.Collector.New | lua/src/lgc.c:685-691 | A new object is alive in every phase, also in the middle of a sweep. |
| Gc.Collector.NewString | lua/src/lstring.c:50-72 | A new string is alive in every phase, also if its chain was swept already. |
| Gc.Collector.FindString | lua/src/lstring.c:75-93 | A dead string that is found again comes back to life. |
| Gc.Collector.FindUpval | lua/src/lfunc.c:53-79 | There is one open upvalue for a stack slot: an existing one is returned, brought back to life if dead; the list stays strictly descending. |
| Gc.Collector.CloseUpvals | lua/src/lfunc.c:96-112 | Exactly the upvalues at or above the level are closed, those below stay open, and no value changes. |
| Gc.Collector.CloseHead | lua/src/lfunc.c:96-112 | The first upvalue of the list is closed with its value and put on the root list, or freed if it is dead. |
| Gc.Collector.LinkMark | lua/src/lgc.c:694-709 | Closing a gray upvalue while marking keeps the colour invariant. |
| Gc.Collector.SetUpval | lua/src/lvm.c:451-456 | Writing through an upvalue, open or closed, changes the one cell that all closures share. |
| Gc.Collector.constructor | lua/src/lstate.c:70-81 | A new state, with the main thread, its table of globals and the registry, satisfies the invariant. |
| Gc.Collector.FixString | lua/src/lstring.h:24-24 | Fixing a live string keeps the invariant in every phase and kills nothing. |
| GcCycle.NothingDead | lua/src/lgc.c:407-428 | In pause and propagate no object on the collected lists carries the other white. |
| GcWrite.WriteForward | lua/src/lgc.c:661-671 | The forward barrier keeps the colour invariant. |
| GcWrite.WriteBack | lua/src/lgc.c:674-682 | The backward barrier keeps the colour invariant. |
| GcClose.WhitenInv | lua/src/lgc.c:407-428 | Making a live object white again in a sweep keeps the invariant. |
| GcInv.AtomicEnds | lua/src/lgc.c:525-553 | With everything that is held marked, the flip makes exactly the unmarked objects dead and keeps the invariant. |
| TableRuns.RunOps | lua/src/ltable.c:435-529 | Every sequence of gets and sets on a new table answers like a finite map; it can stop only with "table overflow", and then at least 2^26 keys are in use. |
| TableRuns.LastWrite | lua/src/ltable.c:435-529 | A get answers what the last set of the key wrote, and nil if there was none or it wrote nil. |
| TableRuns.BadKeys | lua/src/ltable.c:494-505 | Sets of nil and NaN keys fail and change nothing; all others succeed. |
| TableRuns.Traverse | lua/src/ltable.c:137-179 | A traversal with luaH_next from nil ends and visits no key twice and every key that has a value throughout, each with its value of the moment, though between any two steps existing entries, visited or not, are assigned or set to nil. |
| LuaTable.Table.Get | lua/src/ltable.c:469-491 | The result is what the table stores for the key. |
| LuaTable.Table.FindNode | lua/src/ltable.c:435-463 | The chain walk from the main position finds the key if any node has it. |
| LuaTable.Table.FreePos | lua/src/ltable.c:382-388 | Returns a node that was never used, or there is none left. |
| LuaTable.Table.NewKey | lua/src/ltable.c:399-429 | Inserts the key in each of the three cases, keeping chains acyclic, every key reachable from its main position and all stored values; or there is no free node. |
| LuaTable.Table.Set | lua/src/ltable.c:494-505 | Changes the stored map at the key only; nil and NaN keys are refused exactly. |
| LuaTable.Table.Rehash | lua/src/ltable.c:333-349 | The array part gets the best size, nothing stored changes, and the pending key then has room, so the retry succeeds. |
| LuaTable.Table.Resize | lua/src/ltable.c:297-324 | No insertion made by resize rehashes again, and the stored map is unchanged. |
| LuaTable.Table.NewNodes | lua/src/ltable.c:272-294 | Gives free nodes, at least as many as asked for, or the table overflows. |
| LuaTable.Table.NumUseArray | lua/src/ltable.c:222-244 | Counts the used slots by powers of two. |
| LuaTable.Table.NumUseHash | lua/src/ltable.c:247-260 | Counts the used nodes, and their integer keys by powers of two. |
| LuaTable.Table.CountInt | lua/src/ltable.c:211-219 | Counts one key in its slice, or not at all. |
| LuaTable.Table.FindIndex | lua/src/ltable.c:137-159 | The position of a key in the order of traversal; an error exactly for keys that are not there. |
| LuaTable.Table.Next | lua/src/ltable.c:162-179 | Returns the next live entry in the order of traversal, skipping only empty ones. |
| LuaTable.Table.UnboundSearch | lua/src/ltable.c:532-553 | Returns a border. |
| LuaTable.Table.Length | lua/src/ltable.c:560-576 | Returns a border (section 2.5.5 of the Lua 5.1 Reference Manual). |
| TableSize.ComputeSizes | lua/src/ltable.c:189-208 | The largest power of two of which more than half is in use, and how many keys it takes. |
| TableSize.Log2 | lua/src/lobject.c:54-69 | The integer logarithm, -1 for 0. |
| TableSize.CeilLog2 | lua/src/lobject.h:367-367 | The number of the slice between powers of two that holds x. |
| TableHash.ReuseMainOK | lua/src/ltable.c:399-429 | Taking over an empty main position keeps the hash part well formed. |
| TableHash.LinkAfterOK | lua/src/ltable.c:399-429 | Linking a new node after the collider keeps the hash part well formed. |
| TableHash.MoveColliderOK | lua/src/ltable.c:399-429 | Moving a collider out of a foreign main position keeps the hash part well formed. |
| TableHash.MoveColliderAdds | lua/src/ltable.c:399-429 | Moving the collider loses no entry and adds just the new key. |
| Checker.RunsSound | lua/src/ldebug.c:317-486 | Every run of accepted code in which the unchecked LOADBOOL skips land on an instruction stays on instruction boundaries inside the code, and every operand it meets is in bounds. |
| Checker.ClosedExactly | lua/src/ldebug.c:317-486 | Accepted code is closed under steps if and only if those skips land well: the exact condition that the checker misses. |
| Checker.AcceptedButLeaves | lua/src/ldebug.c:374-380 | LOADBOOL with C = 2 before the last RETURN is accepted, and skips out of the code. |
| Checker.Symbexec | lua/src/ldebug.c:317-475 | The loop accepts exactly the prototypes whose every instruction is well formed. |
| Checker.CheckCode | lua/src/ldebug.c:484-486 | luaG_checkcode is that decision. |
| CheckerExact.AcceptsExactly | lua/src/ldebug.c:268-486 | A prototype is accepted if and only if its sizes fit and, at every instruction, the operands are in bounds, the unused ones zero as the modes ask, all successors instructions (but for the unchecked LOADBOOL skip), the open forms followed by a consumer, and tests by a jump. |
| CheckerExact.TwoAccepted | lua/src/ldebug.c:317-475 | In numbers: for every opcode that does not jump and all operands, when the code of this instruction and a RETURN is accepted. |
| CheckerExact.JumpAccepted | lua/src/ldebug.c:343-371 | The same for jumps and numeric for loops. |
| CheckerExact.TestAccepted | lua/src/ldebug.c:370-436 | The same for tests and the jumps after them. |
| CheckerExact.AcceptsLargest | lua/src/ldebug.c:276-285 | Functions have 1 to 250 registers. |
| CheckerExact.AcceptsConcat | lua/src/ldebug.c:401-405 | `return a..b` is accepted. |
| Checker.CheckTarget | lua/src/ldebug.c:343-363 | The backward loop over a jump target accepts exactly the real instructions. |
| Checker.ParityExact | lua/src/ldebug.c:343-363 | A word is an instruction and not the argument of a SETLIST if and only if the number of SETLIST-like words right before it is even. |
| Checker.CheckCaptures | lua/src/ldebug.c:450-463 | Exactly nups words that are MOVE or GETUPVAL follow an accepted CLOSURE. |
| Checker.OperandsSound | lua/src/ldebug.c:304-314 | Every register, constant, upvalue and prototype operand of accepted code is in bounds, both ends of LOADNIL included. |
| Checker.StepSound | lua/src/ldebug.c:317-475 | One step of accepted code leads to an instruction of the code. |
| Matcher.MatchState.Match | lua/src/lstrlib.c:365-440 | Terminates and returns the first match in the order of choices, NULL only if there is none; the end is inside the subject; on failure the captures are as before. |
| Matcher.MatchState.MaxExpand | lua/src/lstrlib.c:301-313 | The longest repetition for which the rest matches, tried from the longest down. |
| Matcher.MatchState.MinExpand | lua/src/lstrlib.c:316-326 | The shortest repetition for which the rest matches. |
| Matcher.MatchState.StartCapture | lua/src/lstrlib.c:329-340 | Opens a capture for the rest, and takes it back on failure. |
| Matcher.MatchState.EndCapture | lua/src/lstrlib.c:343-351 | Closes the last open capture for the rest, and takes it back on failure. |
| Matcher.MatchState.MatchCapture | lua/src/lstrlib.c:354-362 | Matches a repetition of a finished capture; an error for any other. |
| Matcher.MatchState.MatchBalance | lua/src/lstrlib.c:281-298 | The end of the first balanced stretch. |
| Matcher.MatchState.MatchSpecial | lua/src/lstrlib.c:365-440 | The cases %b, %f and back references of the same statement. |
| Matcher.MatchState.MatchDefault | lua/src/lstrlib.c:365-440 | The default case: a single character and its suffix. |
| Matcher.MatchState.SingleMatch | lua/src/lstrlib.c:268-275 | True exactly if the character is in the set that the item denotes. |
| Matcher.MatchState.MatchBracketClass | lua/src/lstrlib.c:245-265 | True exactly if the character is in the bracket set. |
| Matcher.MatchState.ClassEndOf | lua/src/lstrlib.c:202-223 | The end of the class, or the error for a malformed one. |
| PatternMeaning.AllIs | lua/src/lstrlib.c:365-440 | The ordered list of choices holds exactly the matches of the declarative semantics. |
| PatternMeaning.BalanceEndIs | lua/src/lstrlib.c:281-298 | The counter finds the first position at which the depth is zero again. |
| PatternMeaning.RunIs | lua/src/lstrlib.c:301-313 | Repetitions of a single character end within its longest run. |
| PatternText.TextParses | lua/src/lstrlib.c:365-440 | Every list of items that can be written is what its text is read as, whatever stands before it: reading inverts writing. |
| PatternText.ItemReads | lua/src/lstrlib.c:365-440 | Each form of item is read from its text: captures, %b, %f, %0 to %9, $ at the end, and a set with or without a suffix. |
| PatternText.OddSets | lua/src/lstrlib.c:202-265 | Sets with ], - and ^ at odd places, and with %]. |
| PatternText.OddItems | lua/src/lstrlib.c:403-440 | $ and suffixes that stand for themselves. |
| PatternText.Malformed | lua/src/lstrlib.c:202-223 | Texts that end too early are errors. |
| PatternLaws.FindPlain | lua/src/lstrlib.c:495-535 | A pattern without special characters finds the leftmost place where it stands, or nothing exactly if there is none. |
| PatternLaws.FindTwin | lua/src/lstrlib.c:354-362 | `(.)%1` finds the first character that stands twice in a row. |
| PatternLaws.GreedyIsLongest | lua/src/lstrlib.c:301-313 | Star takes the longest run after which the rest matches. |
| PatternLaws.LazyIsShortest | lua/src/lstrlib.c:316-326 | Minus takes the shortest run after which the rest matches. |
| PatternLaws.PlusAndOptional | lua/src/lstrlib.c:417-430 | Plus is one and then star; optional tries one first. |
| PatternLaws.BalancedMeans | lua/src/lstrlib.c:281-298 | %bxy stops at the first place with as many y as x. |
| PatternLaws.FrontierMeans | lua/src/lstrlib.c:384-395 | %f stands where the set begins, both ends of the subject counting as zero characters. |
| PatternLaws.NestedMatches | lua/src/lstrlib.c:329-351 | Captures are numbered by their opening and closed from the inside out, and `()` is a position. |
| PatternLaws.SetsHold | lua/src/lstrlib.c:245-275 | What each kind of set takes. |
| PatternLaws.CaptureMeans | lua/src/lstrlib.c:466-482 | A position capture after n characters is the number n + 1; the others are their text. |
| Find.FindAux | lua/src/lstrlib.c:495-535 | For every well-formed pattern: finds the leftmost match, and its first one in the order of choices, with all its captures; nothing exactly if no start position has a match; the error of an unfinished capture only if a parenthesis is left open. |
| Find.PushCaptures | lua/src/lstrlib.c:466-492 | Pushes the values of all captures, or the whole match, exactly if none is unfinished. |
| Find.ShapeEnds | lua/src/lstrlib.c:329-351 | All matches of a pattern leave the same captures unfinished: those whose parenthesis is not closed. |
| Find.OpenCapture | lua/src/lstrlib.c:466-482 | `(a` is well formed for the matcher and leaves its capture open. |
| ConnectionRuns.Receive | ConnectionManager.cpp:108-137 | Any list of updates, loads and polls, on any bytes, leaves the receive list and brings what the function `Run` of the events says, unguarded loads of incomplete messages included. |
| ConnectionRuns.DeliveredExactly | ConnectionManager.cpp:108-137 | On a stream of frames, the loads bring the payloads that were sent, in order, and the list and the unread bytes hold the rest, if and only if every load finds a complete message and no read crosses the end of a header. |
| ConnectionRuns.LoadsInOrder | LuaMsg.cpp:26-51 | If every load finds a complete message, the payloads come in order, none lost or twice, even after a read that crosses the end of a header. |
| ConnectionRuns.EarlyInput | LuaMsg.cpp:26-36 | The frame 0, 1, 7, loaded after its first byte: the message is gone, and the next one takes 1, 7 for a header of 263 bytes. |
| Connection.Transfer | ConnectionManager.cpp:81-137 | Messages sent with any partial sends and received with any fragmentation arrive in order with the same payloads, unless a read crosses the end of a header. |
| Connection.CrossingInput | NetMessage.cpp:76-83 | The frame 0, 1, 7, read as one byte and then two, has its header crossed. |
| Connection.WholeHeadsFit | NetMessage.cpp:76-83 | If every read in a header returns all that getReadCap asks for, no read crosses the end of a header. |
| Connection.Connection.RemoveMsg | ConnectionManager.cpp:348-358 | The first occurrence of the message leaves the list, nothing else does. |
| Connection.Connection.HasPendingMsg | eng_socket.cpp:135-147 | True if and only if there is a first message and it is complete. |
| Connection.Connection.Load | LuaMsg.cpp:26-36 | The first message leaves the list, complete or not, with its cursor after the header; from an empty list comes null. |
| Connection.ReadFrames | ConnectionManager.cpp:108-137 | On a stream of frames the completed messages are the payloads in order, no byte is lost, and nothing but a read across the end of a header goes wrong. |
| Connection.Connection.SendLoop | ConnectionManager.cpp:81-107 | The wire gets the frames of the queue in order, a prefix of them as long as the schedule allows; only messages sent in full leave the queue. |
| Connection.Connection.SendOne | ConnectionManager.cpp:85-95 | One message goes out in pieces that together are its frame. |
| Connection.Connection.ReceiveLoop | ConnectionManager.cpp:108-137 | From any list, on any bytes and for any sizes of the reads, the list holds what the function `Read` says: the completed payloads and the part of the next message, or, from the first read across a header or negative length on, a last message that is stuck. |
| Connection.Connection.ReceiveOne | ConnectionManager.cpp:108-137 | One read of at most getReadCap bytes extends the last message, or begins a new one if that is complete; it leaves it stuck exactly if it crosses the end of the header or brings a length that is negative as an int. |
| Connection.FrameHead | NetMessage.cpp:300-322 | The header tells the length of the payload on both sides of the switch at 0xFFFF. |
| Connection.PrefixRemaining | NetMessage.cpp:70-84 | What an incomplete frame still needs lies inside the frame, and is nothing exactly when the frame is complete. |
| Message.NetMessage.Build | NetMessage.cpp:295-322 | The buffer holds the frame of the encoded fields. |
| Message.NetMessage.EndForWrite | NetMessage.cpp:300-322 | The header, short or long, stands right before the payload. |
| Message.NetMessage.CheckBufSize | NetMessage.cpp:325-331 | There is room at the cursor, and all bytes written before are kept. |
| Message.NetMessage.PutNumber | NetMessage.cpp:341-487 | Appends the bytes of the number, most significant first. |
| Message.NetMessage.Write | NetMessage.cpp:341-582 | Appends the encoding of the field and nothing else. |
| Message.NetMessage.GetNumber | NetMessage.cpp:364-592 | Reads the number at the cursor. |
| Message.NetMessage.Read | NetMessage.cpp:364-592 | Reads back the field from its encoding and consumes exactly it. |
| Message.NetMessage.ReadAll | NetMessage.cpp:364-592 | Reading the types of the written fields in order gives the fields, and ends at the end of the payload. |
| Message.RoundTrip | NetMessage.cpp:341-592 | Writing any fields and reading their types back yields the same fields. |
| Exchange.Exchange | ConnectionManager.cpp:81-137 | End to end: fields written into messages, sent, received, loaded and read are the same fields, message by message, one for every frame that the reads complete; all of them if the sockets take and give enough and no read crosses the end of a header. |
| Message.NetMessage.Receive | NetMessage.cpp:233-273 | A read within a header or a body extends the frame; one that crosses the end of a header, or brings a length of 2^31 or more, leaves the message stuck for good. |
| Message.NetMessage.OnReceive | NetMessage.cpp:233-273 | The state after a read is that of the bytes received so far. |
| Codec.SignedTrip | NetMessage.cpp:341-592 | Signed numbers of any width survive encoding and decoding. |
| Codec.UnsignedTrip | NetMessage.cpp:341-592 | Unsigned numbers of any width survive encoding and decoding. |
| CodecLaws.IntBytes | NetMessage.cpp:341-487 | Numbers have their most significant byte first, negative ones in two's complement. |
| CodecLaws.NumberIs | NetMessage.cpp:341-487 | What number two and four bytes are. |
| CodecLaws.BoolByte | NetMessage.cpp:440-450 | true is the byte 1 and false the byte 0. |
| CodecLaws.TextBytes | NetMessage.cpp:556-582 | A string has its length in four bytes before it. |
| CodecLaws.FrameBytes | NetMessage.cpp:300-322 | The frame, byte by byte: two bytes of length up to 65534, or 255, 255 and four. |
| CodecLaws.FieldsFollow | NetMessage.cpp:341-582 | Fields follow one another without gaps. |
| Sort.AuxSort | lua/src/ltablib.c:193-254 | For every strict weak order, the part l..u is sorted and permuted, the rest unchanged, and the depth of the recursion is at most logarithmic. |
| Sort.Partition | lua/src/ltablib.c:218-243 | The scans stay in bounds, so the "invalid order function" branches are never reached, and the pivot separates the two parts. |
| Sort.MedianOfThree | lua/src/ltablib.c:196-216 | First, middle and last element are in order. |
| Sort.SortSmaller | lua/src/ltablib.c:244-252 | Only the smaller part is sorted by a call. |
| Sort.SortTable | lua/src/ltablib.c:256-264 | The table holds the same elements, and none is less than one before it. |
| Quote.QuoteTrip | lua/src/lstrlib.c:696-723 | For every byte string, reading the %q form gives the string back and stops right after the closing quote. |
| Quote.AddQuoted | lua/src/lstrlib.c:696-723 | Appends the quoted form of the string. |
| Quote.ScanQuoted | lua/src/llex.c:278-331 | The reader on quoted text, from any state and with any text after it. |
| QuoteLaws.Letters | lua/src/llex.c:289-322 | On any text: the seven letters after a backslash are the characters 7 to 13. |
| QuoteLaws.Codes | lua/src/llex.c:303-317 | One to three digits are a character code, and one above 255 is an error. |
| QuoteLaws.Breaks | lua/src/llex.c:300-301 | A broken line is one newline, also if it is carriage return and line feed in either order. |
| QuoteLaws.Others | lua/src/llex.c:303-305 | Any other character after a backslash stands for itself. |
| QuoteLaws.Plain | lua/src/llex.c:280-328 | Other characters stand for themselves, the delimiter ends the string, and a line break or the end is an error. |
| QuoteLaws.ReadsLiteral | lua/src/llex.c:278-331 | A literal with single quotes, a decimal code and a letter. |
| QuoteLaws.QuotedIs | lua/src/lstrlib.c:696-723 | What %q writes for each character. |
| QuoteLaws.QuotedPlain | lua/src/lstrlib.c:696-723 | A text without special characters is put between quotes. |
| Quote.LexState.ReadString | lua/src/llex.c:278-331 | The reader returns the contents, the position and the line of the scan, or its error. |
| Quote.LexState.ReadEscape | lua/src/llex.c:278-331 | One escape sequence moves the reader as one step of the scan. |
| Quote.LexState.ReadDecimal | lua/src/llex.c:278-331 | Reads at most three digits. |
| Precedence.OneTree | lua/src/lparser.c:788-858 | A token list is accepted with a tree if and only if that tree has these tokens and is consistent with the priority table: there is exactly one. |
| Precedence.PrintParse | lua/src/lparser.c:788-858 | Printing a tree with parentheses only where they are needed and parsing it gives the tree back. |
| Precedence.ParensNeeded | lua/src/lparser.c:810-818 | No pair of printed parentheses can be left out, around operands of unary or binary operators and at any depth: whatever the text is then read as, it is another tree. |
| Precedence.ShortestText | lua/src/lparser.c:788-858 | No token list that is read as a tree is shorter than the printed one. |
| Precedence.ParsesAllowed | lua/src/lparser.c:828-853 | In any context that does not bind tighter, the parser reads an allowed tree as a whole. |
| Precedence.SubExprFaithful | lua/src/lparser.c:828-853 | Whatever the parser returns is allowed, has the tokens read and stops before an operator that does not belong to it. |
| PrecedenceLaws.BinaryGroups | lua/src/lparser.c:810-818 | How `a op1 b op2 c` groups, for all pairs, by the order of section 2.5.6 of the Lua 5.1 Reference Manual. |
| PrecedenceLaws.UnaryGroups | lua/src/lparser.c:810-821 | Unary operators stand between the multiplications and ^. |
| PrecedenceLaws.ParensGroup | lua/src/lparser.c:727-775 | Parentheses come first. |
| PrecedenceLaws.TableIs | lua/src/lparser.c:810-818 | All comparisons of priorities that the parser makes follow the order of the manual. |
| PrecedenceLaws.ParensByLevel | lua/src/lparser.c:828-853 | Which operands of a binary operator need parentheses, by that order. |
| PrecedenceLaws.UnaryParensByLevel | lua/src/lparser.c:828-853 | Which operands of a unary operator do. |
| Precedence.Parser.SubExpression | lua/src/lparser.c:828-853 | The loop returns the tree, the position and the first operator that it leaves. |
| Precedence.Parser.SimpleExp | lua/src/lparser.c:727-775 | Operands and parenthesised expressions. |
| Dump.DumpTrip | lua/src/lundump.c:195-209 | Undumping a dump gives the same prototype tree, or its stripped form, whatever chunks the reader delivers. |
| Dump.DumpChunk | lua/src/ldump.c:153-164 | The output is the header and the image of the tree. |
| DumpFormat.Write | lua/src/ldump.c:55-164 | The format itself: a dump is the bytes of a list of pieces that stands on its own, with the signature, the version, the byte order and the sizes at their places, the types of constants 0, 1, 3 and 4, lists after their lengths and strings after their lengths plus one and before a zero. |
| DumpFormat.Read | lua/src/lundump.c:61-209 | What has this format is read as the function it describes. |
| DumpFormat.ProtoIs | lua/src/ldump.c:129-141 | The image of one function, piece by piece. |
| DumpFormat.HeaderIs | lua/src/lundump.c:214-227 | The header, byte by byte, for either byte order. |
| DumpFormat.Ranges | lua/src/lundump.c:61-88 | The ranges of ints, chars and lengths of strings. |
| DumpFormat.StrippedLoads | lua/src/ldump.c:111-141 | Stripping takes the sources and the debug information at every level, and nothing else. |
| Dump.DumpState.DumpFunction | lua/src/ldump.c:129-141 | Appends the image of the prototype; the source only where it differs from that of the parent. |
| Dump.DumpState.DumpConstants | lua/src/ldump.c:80-109 | Appends the image of the constants. |
| Dump.DumpState.DumpNested | lua/src/ldump.c:80-109 | Appends the images of the nested prototypes. |
| Dump.DumpState.DumpDebug | lua/src/ldump.c:111-127 | Appends the debug information, or its stripped form. |
| Dump.DumpState.DumpString | lua/src/ldump.c:61-74 | Appends the image of a string, null and empty ones included. |
| Dump.DumpState.DumpVector | lua/src/ldump.c:55-59 | Appends the size and the elements. |
| Dump.Undump | lua/src/lundump.c:195-209 | Reads the image of any acceptable tree back. |
| Dump.LoadState.LoadFunction | lua/src/lundump.c:161-181 | Reads the prototype and consumes exactly its image, within the limit of nesting. |
| Dump.LoadState.LoadNested | lua/src/lundump.c:100-135 | Reads the nested prototypes. |
| Dump.LoadState.LoadConstants | lua/src/lundump.c:100-135 | Reads the constants. |
| Dump.LoadState.LoadConst | lua/src/lundump.c:100-135 | Reads one constant of each type. |
| Dump.LoadState.LoadDebug | lua/src/lundump.c:137-159 | Reads the debug information. |
| Dump.LoadState.LoadString | lua/src/lundump.c:76-88 | Reads a string, null and empty ones included. |
| Dump.LoadState.LoadInt | lua/src/lundump.c:61-67 | Reads an int, negative ones refused. |
| Dump.LoadState.LoadVector | lua/src/lundump.c:90-96 | Reads a vector of ints. |
| DumpSpec.LoadedSame | lua/src/lundump.c:161-181 | Without stripping, what is loaded is the tree that was dumped, for every tree. |
| Zio.Stream.Read | lua/src/lzio.c:58-71 | Returns the next n bytes whatever the chunks are, or reports that bytes are missing. |
| Zio.Stream.Lookahead | lua/src/lzio.c:35-45 | Fills the buffer if it is empty and there is more, without losing a byte. |

## Left out

- Code generator: strings, arithmetic, concatenation, calls, upvalues, globals, table access, vararg and closures; metamethods; the limits on registers, constants and jump offsets; minus zero as a table key for constants. Comparisons are those of numbers, any other operands being an error.
- CodeGenTheorems.ReturnCorrect: `Safe` is sufficient and not necessary; `ReturnExact` says run by run when an expression outside of it is right.
- DeliveryExact.RunExact: asks for `RunSafe`, that every comparison of the run has the outcome it would have without held values (`RunSafeIs`). A run past a comparison that came out wrong (`CompareExactly` says when it does) is described by its delivered way alone, not by an if-and-only-if with the meaning. `ReturnExact` and `CondTurns` ask for the same.
- Checker.RunsSound: asks for `OddSkipsLand`, the condition of `Checker.ClosedExactly`; the open forms of CALL, RETURN, SETLIST and VARARG and the call temporaries of TFORLOOP are bounded only as far as the checker does.
- Checker: the tracing mode of symbexec (a register to look for).
- Tables: dead keys left by the collector belong to the collector's model; the array part is assumed to have at most 2^26 slots, and the state after "table overflow" is not described. Numbers are abstract, with integer keys visible; the hash is any function.
- Collector: pacing, memory counts, shrinking of stacks and of the string table, the call of a finalizer (the userdata goes back to the root list), luaC_freeall and the end of the state; metamethods are two flags of a metatable. All collectable objects but strings and open upvalues are on one root list with new ones in front, where the source keeps userdata behind the main thread. Popping a stack slot is overwriting it with nil.
- Gc.Collector.FullGC: a string that only weak tables refer to may be kept or not, because cleartable marks it only if it looks at it; the two halves of the contract leave this open. What strong references reach only through userdata that already wait for their finalizers may be finalized, as in the code.
- Gc.Collector.Atomic: the law of what weak tables lose is stated for cycles in which no black table is weak (`BlackStrong`), as in every full collection; in an incremental cycle the program may make a table weak after it has been traversed.
- Gc.Collector.Finalizer: the order in which finalizers are called is that of tmudata; it is not tied to the order of creation.
- Collector: the fields of the global state are grouped in two records.
- Pattern matcher: match_class is a parameter; `goto init` is the call that it abbreviates; the depth of the C stack, gmatch, gsub and plain find. What match does on malformed patterns depends on how far it gets and is not described.
- Message.NetMessage.Build: payloads of 2^31 bytes or more, for which the length field overflows.
- Connection.Connection.ReceiveLoop: when reads have filled the buffer of a stuck message, the loop of the model ends, where the source writes behind the buffer. A read of zero bytes or an error, which close the connection, are not part of a schedule.
- ConnectionRuns.Receive: promises nothing after a load from an empty list or of a stuck message.
- Messages: the memory pool (a buffer comes with any contents), floats and doubles, the empty encryption hooks, CheckState and the sockets themselves, which are schedules of byte counts.
- Sort.AuxSort: order functions that are not strict weak orders, or that raise errors.
- Quote.QuoteTrip: texts of more lines than an int counts.
- Precedence: the nesting limit, and the other forms of simpleexp.
- Dump.DumpTrip: prototypes whose sizes and numbers do not fit their fields, whose sources are null, that are nested too deeply or that the checker refuses; the checker is a parameter, and writer errors are not modelled. The byte order is any, the sizes of the types are those of a 64-bit machine.
- Lua binding glue, standard libraries other than those named, I/O and operating system calls.
