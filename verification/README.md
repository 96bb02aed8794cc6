# Proofs about the bbox repository

This project models the parts of the repository whose correctness is hardest to see from the code, in
Dafny 4.11, and proves what they promise. `dafny verify dfyconfig.toml` checks all of it.

Each component has a functional specification of what its operations do, classes whose methods change fields,
arrays and lists the way the source does and are proved to compute that specification, and lemmas about the
specification that say what the component is for. A state machine with an environment (callbacks still queued,
a worker thread, a socket) is a `World` of fields, outstanding entries and histories; a run is any list of
enabled steps.

- **The Lua 5.2 code generator** (`lua_*.dfy`). `lua_vm.dfy` has the instructions with the meaning that
  `lopcodes.h` lists and `lvm.c` executes. `lua_gen.dfy` says what `lcode.c` computes when a jump list is a
  sequence of jumps. `lua_run.dfy` to `lua_program.dfy` prove that the code means what the source means, first for
  each operation, then for expressions (`lua_correct.dfy`), then for local statements and assignments with any
  numbers of names, targets and values (`lua_locals.dfy`), then for functions of these and if statements. In
  `lua_codegen.dfy` the class `FuncState` threads the lists through the operands of the jumps, as the C code
  does, and is proved to compute `lua_gen.dfy`; `lua_lists.dfy` is the theory of threaded lists.
- **Asynchronous objects**: `timer.dfy`, `one_shot_work.dfy`, `thread_pool.dfy` (with `ThreadPoolRef`) and
  `fadecandy.dfy`. Run levels are a variable and `NotifyStopped` is the step to `Stopped`; ResourceBase, which
  owns them, is not part of this model.
- **Encoders and decoders**: `base64.dfy`; the binary codec in `binary_codec.dfy`, `to_binary.dfy` and
  `from_binary.dfy`; the C++ XML cursor in `xml_cursor.dfy`; the XML codec of the browser client library in
  `app_xml.dfy`, `app_to_xml.dfy` and `app_from_xml.dfy`, over the numbers of `app_numbers.dfy`, where the digits
  that JavaScript chooses and the rounding of `parseInt` are parameters with the laws of ECMA-262. Both XML
  decoders are proved to agree, on every document, with a plain recursive decoder of element trees.
- **Linked bookkeeping**: Lua references in `lua_refs.dfy`, debug reports in `debug_report.dfy` and
  `debug_provider.dfy`.
- **Project references**: `project_references.dfy`.

Where the code does not do what its surroundings suggest, the model follows the code and a lemma gives the exact
condition:

- `FadecandyModel.ReportStaysDue`, `RunReports`, `ReportCanBeLost`: a stop requested while a connection is being
  made is not answered when the connection then succeeds and no frame is waiting, because the success branch of
  `ConnectComplete` does not check for shutdown; only another frame would bring the answer. `HandleStopping`
  closes the socket (`FadecandyClient.cpp:153-159`), so this is a success that was already queued when the stop
  came.
- `FadecandyModel.SizeFieldFits`: the size field of a frame has 16 bits, so it is right exactly up to 21845
  colours.
- `ToBinaryModel.FitsExactly`, `FirstStringFits`: `PrivateTestForWrite` doubles the buffer once and then reports
  room, so a write fits exactly if it ends within twice the buffer. The writing methods require this.
- `FromXmlModel.RoundTrip`: a long or unprintable string goes through `c_str()`, so a value comes back exactly
  if none of its strings holds a NUL.
- `Base64.DecodeOf`: letters that follow the equals signs are dropped without an error.
- `AppXmlTypes.KeptExactly`: members that a structure's type does not name are lost on the way.
- `AppNumbers.IntTextBack`, `AppXmlTypes.TooLongForParseInt`: from 10^21 on a number is written with an exponent,
  and `parseInt` reads a single digit.
- `LuaRefsModel.LengthNeedsNoHole`: the length of a table with a free slot would be ambiguous; the library never
  asks for it then.
- `AppToXmlModel.Int32TakesMore`: the lower bound of `int32_t` in `src/TypeScript_UnitTests/app.js:1511` is
  -21474836478, so exactly the numbers from there to -2147483649 are accepted outside the range of that type.

## Model

| member | source | states |
|---|---|---|
| `LuaProgram.FunctionRun` | src/ThirdParty/Lua/src/lparser.c:1409-1451 | for every function body of if statements, local declarations and assignments to locals, each with lists of names, targets and values of any lengths, whose frame fits: running the emitted code from any registers ends with the values of the locals that the statements give, or with the first error |
| `LuaCodegen.CompileMain` | src/ThirdParty/Lua/src/lparser.c:527-580 | the in-place generator produces that code; no jump of it is pending any more, no list is live, and it behaves as the source |
| `LuaCorrect.CompileRun` | src/ThirdParty/Lua/src/lparser.c:1037-1063 | for every expression and any code before it, the code leaves the value of the expression in its descriptor, keeps the registers below, balances the registers and leaves older lists alone; a run-time error stops it as evaluation does |
| `LuaLocals.ToNextReg` | src/ThirdParty/Lua/src/lcode.c:492-497 | through luaK_exp2nextreg the value is in the new register, every register below is unchanged, and freereg goes up by exactly one |
| `LuaLocals.ValuesRun` | src/ThirdParty/Lua/src/lparser.c:810-820 | the values of a list of expressions pile up in order on the register stack, up to the first error, and nothing below them changes |
| `LuaLocals.PadRun` | src/ThirdParty/Lua/src/lparser.c:310-327 | names without values get nil |
| `LuaLocals.LocalRun` | src/ThirdParty/Lua/src/lparser.c:1434-1451 | a local statement adds its names, with the values of the list, the spare ones dropped or nil added |
| `LuaLocals.StoreTopsRun` | src/ThirdParty/Lua/src/lparser.c:1136-1166 | stores from the top of the stack, the last target first, so of two equal targets the first wins; the stack is balanced |
| `LuaLocals.StoreLastRun` | src/ThirdParty/Lua/src/lcode.c:558-564 | the last value goes straight to its target, and no other register in use changes |
| `LuaLocals.AssignRun` | src/ThirdParty/Lua/src/lparser.c:1136-1166 | an assignment evaluates all its values before it stores any, changes its targets only, and leaves the registers balanced |
| `LuaProgram.CondRun` | src/ThirdParty/Lua/src/lparser.c:1374-1405 | after the condition of an if the run falls through when it is true and is in the exit list when it is false |
| `LuaProgram.IfThenRun` | src/ThirdParty/Lua/src/lparser.c:1374-1405 | the then part runs exactly when the condition holds; its locals end with it |
| `LuaProgram.IfElseRun` | src/ThirdParty/Lua/src/lparser.c:1409-1420 | exactly one of the two branches runs, and both arrive at the end |
| `LuaProgram.BlockRun` | src/ThirdParty/Lua/src/lparser.c:604-613 | a block runs its statements in order and stops at the first error |
| `LuaProgram.JumpRun` | src/ThirdParty/Lua/src/lcode.c:59-66 | luaK_jump: the new jump takes along every jump that was waiting for its place, so both end at the same destination |
| `LuaPatch.Resume` | src/ThirdParty/Lua/src/lcode.c:150-160 | running patched code is running the old code up to a pending jump and going on at the target that the patch gave it |
| `LuaPatch.JumpedAt` | src/ThirdParty/Lua/src/lcode.c:109-141 | a run that leaves through a pending jump carries the tested value exactly when a TESTSET controls the jump |
| `LuaRun.Continue` | src/ThirdParty/Lua/src/lcode.c:163-166 | whatever is emitted next, the jumps waiting in jpc arrive at it |
| `LuaRun.DischargedOK` | src/ThirdParty/Lua/src/lcode.c:163-166 | dischargejpc keeps the invariant of the code, with the end of the old code as the last target |
| `LuaRun.CodeRun` | src/ThirdParty/Lua/src/lcode.c:212-224 | an emitted straight-line instruction runs after everything before it, whichever way that ends |
| `LuaRun.CondJumpRun` | src/ThirdParty/Lua/src/lcode.c:74-77 | the jump of condjump is taken exactly when its test says so |
| `LuaRun.PatchToHereRun` | src/ThirdParty/Lua/src/lcode.c:192-195 | every jump given to luaK_patchtohere arrives at the next instruction, and jpc non-empty keeps lasttarget at pc |
| `LuaRun.CodeNilRun` | src/ThirdParty/Lua/src/lcode.c:37-56 | merged into the LOADNIL before it or not, luaK_nil clears the registers asked for and no jump lands inside the merge |
| `LuaRun.MergedRun` | src/ThirdParty/Lua/src/lcode.c:37-56 | a merged LOADNIL has the effect of the old and the new one in sequence |
| `LuaRun.AddKFinds` | src/ThirdParty/Lua/src/lcode.c:291-340 | the constant index returned holds exactly the value asked for, also for the two zeros and NaN |
| `LuaExp.LoadRun` | src/ThirdParty/Lua/src/lcode.c:421-457 | discharge2reg puts the value of a descriptor into the register and nothing else changes |
| `LuaClose.CloseRun` | src/ThirdParty/Lua/src/lcode.c:468-489 | the end of exp2reg: falling through or through any exit of the two lists, the register holds the value |
| `LuaClose.ExitPuts` | src/ThirdParty/Lua/src/lcode.c:477-484 | an exit that carries no value is sent to the LOADBOOL of its list, one that does goes to the end with the value in the register |
| `LuaClose.OthersStay` | src/ThirdParty/Lua/src/lcode.c:150-160 | a pending jump outside the two lists stays as it was |
| `LuaRegs.Exp2RegRun` | src/ThirdParty/Lua/src/lcode.c:468-489 | exp2reg leaves the value of any descriptor, with jumps or without, in the register |
| `LuaRegs.Exp2NextRegRun` | src/ThirdParty/Lua/src/lcode.c:492-497 | the value is in the register that was next, which is now taken |
| `LuaRegs.Exp2AnyRegRun` | src/ThirdParty/Lua/src/lcode.c:500-511 | the value is in some register, a local one if it was there already |
| `LuaRegs.Exp2RKRun` | src/ThirdParty/Lua/src/lcode.c:528-555 | the operand returned, register or constant, holds the value |
| `LuaCond.JumpOnCondRun` | src/ThirdParty/Lua/src/lcode.c:606-618 | the jump is taken exactly when the truth of the value is the given one; a not before it is removed |
| `LuaCond.GoIfRun` | src/ThirdParty/Lua/src/lcode.c:621-665 | luaK_goiftrue and luaK_goiffalse: the run goes on with the wanted truth and is in the exit list with the other |
| `LuaCond.NegatedOK` | src/ThirdParty/Lua/src/lcode.c:598-603 | invertjump negates the value of a comparison and keeps the invariant |
| `LuaNot.CodeNotMeans` | src/ThirdParty/Lua/src/lcode.c:668-700 | codenot makes the descriptor stand for the negated value, with its lists exchanged |
| `LuaNot.RemoveValuesRun` | src/ThirdParty/Lua/src/lcode.c:144-147 | removevalues takes away the values that the jumps of the list carry and changes nothing else |
| `LuaOps.FreeBothTop` | src/ThirdParty/Lua/src/lcode.c:733-741 | the order in which the operands are freed always frees the topmost register |
| `LuaOps.ArithEnd` | src/ThirdParty/Lua/src/lcode.c:724-743 | the relocatable instruction of codearith has the value of the operator on the two operands |
| `LuaOps.CompEnd` | src/ThirdParty/Lua/src/lcode.c:746-759 | the comparison, exchanged for > and >=, decides as the operator does |
| `LuaOps.UnaryEnd` | src/ThirdParty/Lua/src/lcode.c:724-743 | the relocatable unary instruction has the value of the operator |
| `LuaCorrect.PrefixRun` | src/ThirdParty/Lua/src/lcode.c:762-783 | luaK_prefix gives the value of the unary operator, folded or emitted |
| `LuaCorrect.InfixRun` | src/ThirdParty/Lua/src/lcode.c:786-810 | after luaK_infix of a strict operator the left operand is in its place, or a numeral kept for folding |
| `LuaCorrect.GateRun` | src/ThirdParty/Lua/src/lcode.c:788-795 | luaK_infix of and/or: the run goes on to the right operand or leaves with the value of the left one |
| `LuaCorrect.LogicRun` | src/ThirdParty/Lua/src/lcode.c:815-826 | luaK_posfix of and/or: the short-circuit value |
| `LuaCorrect.FoldRun` | src/ThirdParty/Lua/src/lcode.c:713-731 | folding two numerals gives what execution would give |
| `LuaCorrect.ArithRun` | src/ThirdParty/Lua/src/lcode.c:724-743 | codearith on the two operands, folded or not |
| `LuaCorrect.CompRun` | src/ThirdParty/Lua/src/lcode.c:746-759 | codecomp on the two operands |
| `LuaLists.ChainMembers` | src/ThirdParty/Lua/src/lcode.c:100-106 | the jumps of a list are distinct jumps of the code, so a walk along it ends |
| `LuaLists.ChainJoin` | src/ThirdParty/Lua/src/lcode.c:198-209 | linking the last jump of one list to the head of another joins the sequences |
| `LuaLists.LinkedPatch` | src/ThirdParty/Lua/src/lcode.c:150-160 | patching a live list resolves its jumps and touches no other list |
| `LuaLists.LinkedJump` | src/ThirdParty/Lua/src/lcode.c:59-66 | a new pending jump is a list of its own, disjoint from all others |
| `LuaLists.LinkedConcat` | src/ThirdParty/Lua/src/lcode.c:198-209 | joining two live lists keeps all live lists threaded and disjoint |
| `LuaLists.LinkedEdit` | src/ThirdParty/Lua/src/lcode.c:598-603 | changing an instruction that is no jump leaves every list alone |
| `LuaLists.LinkedNone` | src/ThirdParty/Lua/src/lcode.c:163-166 | with no list left, no jump of the code is pending |
| `LuaLists.HeadsDiffer` | src/ThirdParty/Lua/src/lcode.c:198-209 | two live lists have the same head only if both are empty |
| `LuaCodegen.FuncState.constructor` | src/ThirdParty/Lua/src/lparser.c:527-552 | an empty function |
| `LuaCodegen.FuncState.GetLabel` | src/ThirdParty/Lua/src/lcode.c:94-97 | lasttarget is the next position |
| `LuaCodegen.FuncState.GetJump` | src/ThirdParty/Lua/src/lcode.c:100-106 | the next jump of the list, NO_JUMP at its end |
| `LuaCodegen.FuncState.FixJump` | src/ThirdParty/Lua/src/lcode.c:80-87 | the jump now goes to the destination; it is the end of its list if the destination is its own place |
| `LuaCodegen.FuncState.GetJumpControl` | src/ThirdParty/Lua/src/lcode.c:109-115 | the instruction that decides whether the jump is taken |
| `LuaCodegen.FuncState.NeedValue` | src/ThirdParty/Lua/src/lcode.c:122-128 | whether some jump of the list carries no value |
| `LuaCodegen.FuncState.PatchTestReg` | src/ThirdParty/Lua/src/lcode.c:131-141 | a TESTSET gets the register or becomes a TEST; anything else is left |
| `LuaCodegen.FuncState.RemoveListValues` | src/ThirdParty/Lua/src/lcode.c:144-147 | every TESTSET of the list becomes a TEST |
| `LuaCodegen.FuncState.PatchListAux` | src/ThirdParty/Lua/src/lcode.c:150-160 | every jump of the list goes to the target its control instruction requires; no other instruction changes; the walk ends |
| `LuaCodegen.FuncState.DischargeJpc` | src/ThirdParty/Lua/src/lcode.c:163-166 | the pending jumps go to the next position |
| `LuaCodegen.FuncState.Concat` | src/ThirdParty/Lua/src/lcode.c:198-209 | the head of the joined list, whose jumps are those of the first and then those of the second |
| `LuaCodegen.FuncState.Code` | src/ThirdParty/Lua/src/lcode.c:212-224 | the instruction is emitted after the pending jumps were sent to it |
| `LuaCodegen.FuncState.Jump` | src/ThirdParty/Lua/src/lcode.c:59-66 | a pending jump at the head of the jumps that waited for its place |
| `LuaCodegen.FuncState.CondJump` | src/ThirdParty/Lua/src/lcode.c:74-77 | the test and its pending jump |
| `LuaCodegen.FuncState.PatchToHere` | src/ThirdParty/Lua/src/lcode.c:192-195 | the list joins the jumps waiting for the next position |
| `LuaCodegen.FuncState.CodeNil` | src/ThirdParty/Lua/src/lcode.c:37-56 | the registers are cleared by a merged or a new LOADNIL |
| `LuaCodegen.FuncState.AddK` | src/ThirdParty/Lua/src/lcode.c:291-316 | the index of the constant, an old one if its key is known and the value is the same |
| `LuaCodegen.FuncState.ReserveRegs` | src/ThirdParty/Lua/src/lcode.c:261-274 | freereg and the frame size; the frame stays below the limit exactly when luaK_checkstack raises no error |
| `LuaCodegen.FuncState.FreeReg` | src/ThirdParty/Lua/src/lcode.c:277-282 | a temporary register is given back |
| `LuaCodegen.FuncState.FreeExp` | src/ThirdParty/Lua/src/lcode.c:285-288 | the register of a descriptor is given back |
| `LuaCodegen.FuncState.DischargeVars` | src/ThirdParty/Lua/src/lcode.c:383-412 | a local becomes the register it is in |
| `LuaCodegen.FuncState.LoadInto` | src/ThirdParty/Lua/src/lcode.c:421-457 | the value of the descriptor is loaded into the register |
| `LuaCodegen.FuncState.Discharge2Reg` | src/ThirdParty/Lua/src/lcode.c:421-457 | the same, and the descriptor now names the register |
| `LuaCodegen.FuncState.Discharge2AnyReg` | src/ThirdParty/Lua/src/lcode.c:460-465 | a register is reserved if the value is in none |
| `LuaCodegen.FuncState.LoadBools` | src/ThirdParty/Lua/src/lcode.c:473-481 | the two LOADBOOLs and their places |
| `LuaCodegen.FuncState.CloseLists` | src/ThirdParty/Lua/src/lcode.c:472-485 | both lists of the descriptor are resolved |
| `LuaCodegen.FuncState.Exp2Reg` | src/ThirdParty/Lua/src/lcode.c:468-489 | the value is in the register and the descriptor has no lists |
| `LuaCodegen.FuncState.Exp2NextReg` | src/ThirdParty/Lua/src/lcode.c:492-497 | the value goes into the next register |
| `LuaCodegen.FuncState.Exp2AnyReg` | src/ThirdParty/Lua/src/lcode.c:500-511 | the value goes into some register |
| `LuaCodegen.FuncState.Exp2Val` | src/ThirdParty/Lua/src/lcode.c:520-525 | a descriptor with jumps is put into a register |
| `LuaCodegen.FuncState.Exp2RK` | src/ThirdParty/Lua/src/lcode.c:528-555 | a register or constant operand |
| `LuaCodegen.FuncState.InvertJump` | src/ThirdParty/Lua/src/lcode.c:598-603 | the condition of the comparison is negated |
| `LuaCodegen.FuncState.JumpOnCond` | src/ThirdParty/Lua/src/lcode.c:606-618 | the jump on the given truth |
| `LuaCodegen.FuncState.GoIfTrue` | src/ThirdParty/Lua/src/lcode.c:621-642 | the false exits, and the true ones patched to here; everything but the kind of the gated descriptor |
| `LuaCodegen.FuncState.GoIfFalse` | src/ThirdParty/Lua/src/lcode.c:645-665 | the true exits, and the false ones patched to here; everything but the kind of the gated descriptor |
| `LuaCodegen.FuncState.CodeNot` | src/ThirdParty/Lua/src/lcode.c:668-700 | the negated descriptor |
| `LuaCodegen.FuncState.CodeArith` | src/ThirdParty/Lua/src/lcode.c:724-743 | folded, or emitted on two operands |
| `LuaCodegen.FuncState.CodeUnary` | src/ThirdParty/Lua/src/lcode.c:724-743 | the unary instruction on one operand |
| `LuaCodegen.FuncState.CodeComp` | src/ThirdParty/Lua/src/lcode.c:746-759 | the comparison and its jump |
| `LuaCodegen.FuncState.Prefix` | src/ThirdParty/Lua/src/lcode.c:762-783 | a unary operator on a descriptor |
| `LuaCodegen.FuncState.Infix` | src/ThirdParty/Lua/src/lcode.c:786-810 | the left operand of a binary operator; after and/or everything but its kind |
| `LuaCodegen.FuncState.Posfix` | src/ThirdParty/Lua/src/lcode.c:813-859 | the result of a binary operator |
| `LuaCodegen.FuncState.CompileExpr` | src/ThirdParty/Lua/src/lparser.c:1037-1063 | an expression, driven as the parser drives it |
| `LuaCodegen.FuncState.CloseValue` | src/ThirdParty/Lua/src/lcode.c:492-497 | a value of a list goes into the next register |
| `LuaCodegen.FuncState.ExpList` | src/ThirdParty/Lua/src/lparser.c:810-820 | every value but the last is in a register of its own, the last is in the descriptor |
| `LuaCodegen.FuncState.AdjustAssign` | src/ThirdParty/Lua/src/lparser.c:310-327 | the last value in its register and nil for the names without values |
| `LuaCodegen.FuncState.CompileLocal` | src/ThirdParty/Lua/src/lparser.c:1434-1451 | a local statement |
| `LuaCodegen.FuncState.StoreVar` | src/ThirdParty/Lua/src/lcode.c:558-564 | the value is put into the register of the local |
| `LuaCodegen.FuncState.CompileAssign` | src/ThirdParty/Lua/src/lparser.c:1136-1166 | an assignment with any numbers of targets and values |
| `LuaCodegen.FuncState.FoldArith` | src/ThirdParty/Lua/src/lcode.c:713-721 | two numerals become one, unless the divisor is zero |
| `LuaCodegen.FuncState.CompileStatement` | src/ThirdParty/Lua/src/lparser.c:1529-1601 | a statement; the lists that were live before are live after, and no others |
| `LuaCodegen.FuncState.CompileBody` | src/ThirdParty/Lua/src/lparser.c:604-613 | the statements of a body in order |
| `LuaCodegen.FuncState.Ret` | src/ThirdParty/Lua/src/lcode.c:69-71 | the final return |
| `TimerModel.EveryRun` | src/BBoxRt/bbox/rt/Timer.cpp:46-158 | over every run of calls, expiries and deliveries in any order: pending timeouts equal the outstanding handlers, m_wait_seq is 0 or m_cur_seq, each callback was fired by the start then in force, and stopped is reported once, with no handler outstanding |
| `TimerModel.StepKeeps` | src/BBoxRt/bbox/rt/Timer.cpp:46-158 | every single step keeps that, from any state in which it holds |
| `TimerModel.BeginKeeps` | src/BBoxRt/bbox/rt/Timer.cpp:93-138 | a delivery fires the callback exactly when its handler succeeded and belongs to the latest start not cancelled since |
| `TimerModel.StoppedIsQuiet` | src/BBoxRt/bbox/rt/Timer.cpp:150-158 | once stopped no handler is outstanding, and it was reported exactly once |
| `TimerModel.PeriodicRun` | src/BBoxRt/bbox/rt/Timer.cpp:63-135 | while nobody interferes, fired + remaining + (1 if running) stays the number asked for, and with RUN_FOR_EVER the remaining count never changes |
| `TimerModel.PeriodicFires` | src/BBoxRt/bbox/rt/Timer.cpp:63-135 | a finite periodic start that was left alone until it stopped running has fired exactly that many times |
| `TimerClass.Timer.StartSingleShot` | src/BBoxRt/bbox/rt/Timer.cpp:46-61 | a new sequence number is in force; older waits are stale |
| `TimerClass.Timer.StartPeriodic` | src/BBoxRt/bbox/rt/Timer.cpp:63-78 | the count of repetitions; zero cancels |
| `TimerClass.Timer.Cancel` | src/BBoxRt/bbox/rt/Timer.cpp:80-86 | no start is in force |
| `TimerClass.Timer.BeginHandleTimeout` | src/BBoxRt/bbox/rt/Timer.cpp:93-131 | HandleTimeout up to the callback, and whether it fires |
| `TimerClass.Timer.HandleStopping` | src/BBoxRt/bbox/rt/Timer.cpp:140-148 | stopped at once if no handler is outstanding |
| `TimerClass.Timer.CheckShutdown` | src/BBoxRt/bbox/rt/Timer.cpp:150-158 | stopped exactly when stopping with no handler outstanding |
| `OneShotModel.EveryRun` | src/BBoxRt/bbox/rt/OneShotWork.cpp:36-94 | over every run: unresolved posts number m_next_token - 1 - m_last_resolved_token, m_pending_token is 0 or m_next_token - 1, and stopped is reported only when all posts are resolved |
| `OneShotModel.StepKeeps` | src/BBoxRt/bbox/rt/OneShotWork.cpp:36-94 | every single step keeps that |
| `OneShotModel.EverySchedule` | src/BBoxRt/bbox/rt/OneShotWork.cpp:36-94 | each effective schedule, once its post was resolved, has fired once or was cancelled, never both; until then its post is queued, it has not fired, and it is pending unless it was cancelled; when stopped, all are resolved |
| `OneShotModel.BeginKeeps` | src/BBoxRt/bbox/rt/OneShotWork.cpp:79-94 | a delivery fires exactly the schedule that is pending, and the oldest unresolved post is the one delivered |
| `OneShotClass.OneShotWork.Schedule` | src/BBoxRt/bbox/rt/OneShotWork.cpp:36-46 | a new token and post, unless one is pending |
| `OneShotClass.OneShotWork.Cancel` | src/BBoxRt/bbox/rt/OneShotWork.cpp:48-53 | the pending token is forgotten, its post still to come |
| `OneShotClass.OneShotWork.HandleStopping` | src/BBoxRt/bbox/rt/OneShotWork.cpp:55-59 | stopped at once if every post is resolved |
| `OneShotClass.OneShotWork.CheckShutdown` | src/BBoxRt/bbox/rt/OneShotWork.cpp:61-69 | stopped exactly when stopping with every post resolved |
| `OneShotClass.OneShotWork.BeginDoCallback` | src/BBoxRt/bbox/rt/OneShotWork.cpp:79-90 | DoCallback up to the callback, and whether it fires |
| `ThreadPoolModel.EveryRun` | src/BBoxRt/bbox/rt/ThreadPool.cpp:46-158 | over every interleaving of posters, worker and proactor: items run once, in the order posted; completed plus in progress is posted; completions are queued in order and before the notice, each telling of the exception that its own item threw; a sleeping worker without a wake-up means an empty queue and not finished |
| `ThreadPoolModel.StepKeeps` | src/BBoxRt/bbox/rt/ThreadPool.cpp:46-158 | every single step keeps that |
| `ThreadPoolModel.StoppedIsIdle` | src/BBoxRt/bbox/rt/ThreadPoolRef.cpp:46-54 | a reference that reports stopped has no work posted, running or waiting to complete |
| `ThreadPoolModel.ReportTells` | src/BBoxRt/bbox/rt/ThreadPool.cpp:125-158 | what a report tells the completion: its error is set exactly when the item threw, it is the error of the exception if that has one, and the text is the text of the exception |
| `ThreadPoolModel.StoppedHasRun` | src/BBoxRt/bbox/rt/ThreadPool.cpp:222-228 | when the pool reports stopped, every item that was posted has run, every completion was sent in that order and has been handled, and nothing is in progress anywhere |
| `ThreadPoolModel.AssertionsHold` | src/BBoxRt/bbox/rt/ThreadPoolRef.cpp:56-76 | no assertion of the pool or of a reference fails in any reachable state |
| `ThreadPoolClass.Pimpl.Post` | src/BBoxRt/bbox/rt/ThreadPool.cpp:58-70 | the item is last in the queue and counted |
| `ThreadPoolClass.Pimpl.HandleStopping` | src/BBoxRt/bbox/rt/ThreadPool.cpp:46-56 | finished is set |
| `ThreadPoolClass.Pimpl.TakeEntry` | src/BBoxRt/bbox/rt/ThreadPool.cpp:89-110 | the first item, or the end of the thread when finished, or a wait |
| `ThreadPoolClass.Pimpl.RunItem` | src/BBoxRt/bbox/rt/ThreadPool.cpp:125-158 | the error and text that the completion gets for every kind of exception; they tell what ReportTells says, and in every run the completion of an item tells it of that item (EveryRun) |
| `ThreadPoolClass.Pimpl.CountItem` | src/BBoxRt/bbox/rt/ThreadPool.cpp:114-119 | one item moves from in progress to completed |
| `ThreadPoolClass.ThreadPoolRef.RunOnThread` | src/BBoxRt/bbox/rt/ThreadPoolRef.cpp:56-76 | one more item is in progress here and in the pool |
| `ThreadPoolClass.ThreadPoolRef.Completed` | src/BBoxRt/bbox/rt/ThreadPoolRef.cpp:65-70 | one item moves from in progress to completed |
| `ThreadPoolClass.ThreadPoolRef.HandleStopping` | src/BBoxRt/bbox/rt/ThreadPoolRef.cpp:35-38 | stopped at once if nothing is in progress |
| `ThreadPoolClass.ThreadPoolRef.CheckStopped` | src/BBoxRt/bbox/rt/ThreadPoolRef.cpp:46-54 | stopped exactly when stopping with nothing in progress |
| `FadecandyModel.EveryRun` | src/Applications/LibLeds/leds/FadecandyClient.cpp:31-124 | over every run: at most one operation is outstanding and none while the reconnect timer is armed, an open idle connection has nothing waiting, and the frames written are whole frames asked for, in order, the newest waiting one replacing older ones |
| `FadecandyModel.StepKeeps` | src/Applications/LibLeds/leds/FadecandyClient.cpp:31-124 | every single step keeps that |
| `FadecandyModel.PixelAt` | src/Applications/LibLeds/leds/FadecandyClient.cpp:168-178 | in the frame of n colours, 4 + 3n bytes long, the three bytes at 4 + 3i are those of colour i |
| `FadecandyModel.SizeFieldFits` | src/Applications/LibLeds/leds/FadecandyClient.cpp:168-178 | the size field tells the number of colour bytes exactly up to 21845 colours; it has 16 bits |
| `FadecandyModel.ReportStaysDue` | src/Applications/LibLeds/leds/FadecandyClient.cpp:41-82 | while stopping, the stopped report stays due through every step exactly but one: a connection that succeeds after the stop with no frame waiting |
| `FadecandyModel.RunReports` | src/Applications/LibLeds/leds/FadecandyClient.cpp:41-82 | over every run without that step the report stays due |
| `FadecandyModel.ReportCanBeLost` | src/Applications/LibLeds/leds/FadecandyClient.cpp:57-70 | that step happens: a stop while the first connection is being made leaves the client stopping, with nothing outstanding and no timer armed |
| `FadecandyClass.FadecandyClient.ReconnectTimeout` | src/Applications/LibLeds/leds/FadecandyClient.cpp:31-39 | one connect is outstanding; its assertion holds |
| `FadecandyClass.FadecandyClient.ConnectComplete` | src/Applications/LibLeds/leds/FadecandyClient.cpp:41-70 | the socket is open and the waiting frame is being written, or the timer is armed, or stopped |
| `FadecandyClass.FadecandyClient.CheckShutdown` | src/Applications/LibLeds/leds/FadecandyClient.cpp:72-82 | stopped exactly when stopping with nothing outstanding |
| `FadecandyClass.FadecandyClient.StartWrite` | src/Applications/LibLeds/leds/FadecandyClient.cpp:84-101 | the waiting frame is handed to an open idle socket |
| `FadecandyClass.FadecandyClient.WriteComplete` | src/Applications/LibLeds/leds/FadecandyClient.cpp:103-124 | the next frame, or reconnecting; its assertions hold |
| `FadecandyClass.FadecandyClient.HandleStopping` | src/Applications/LibLeds/leds/FadecandyClient.cpp:153-159 | stopping |
| `FadecandyClass.FadecandyClient.UpdateLeds` | src/Applications/LibLeds/leds/FadecandyClient.cpp:166-182 | the frame of the colours replaces the waiting one and is written if it can be |
| `FadecandyClass.FadecandyClient.Encode` | src/Applications/LibLeds/leds/FadecandyClient.cpp:168-178 | channel, command, big-endian size and the colours |
| `LuaRefsModel.EveryRun` | src/ThirdParty/Lua/src/lauxlib.c:522-551 | over every run of references and releases on a table that starts with any values in slots 1..k: a returned reference differs from all live ones, and every live value stays under its reference |
| `LuaRefsModel.StepKeeps` | src/ThirdParty/Lua/src/lauxlib.c:522-551 | every single step keeps the free list duplicate-free with nil at its tail, the slots 1..size each live or free, and size the most references ever live at once |
| `LuaRefsModel.RefIsNew` | src/ThirdParty/Lua/src/lauxlib.c:522-541 | a reference is the first free slot, or size + 1 |
| `LuaRefsModel.AsksWhenFull` | src/ThirdParty/Lua/src/lauxlib.c:531-538 | the length is asked for exactly when no slot is free |
| `LuaRefsModel.LengthIsSize` | src/ThirdParty/Lua/src/lauxlib.c:537-538 | with no slot free the table has no hole, so lua_rawlen has one possible answer, the size |
| `LuaRefsModel.LengthNeedsNoHole` | src/ThirdParty/Lua/src/lauxlib.c:531-538 | with a slot free it may have several, and one would give out a slot that is still on the list |
| `LuaRefsModel.ReleasedIsReused` | src/ThirdParty/Lua/src/lauxlib.c:544-551 | the slot released last is given out next, and no other slot changes |
| `LuaRefsClass.GetN` | src/ThirdParty/Lua/src/ltable.c:560-576 | whatever the layout of the table, luaH_getn answers a boundary |
| `LuaRefsClass.UnboundSearch` | src/ThirdParty/Lua/src/ltable.c:532-553 | the search beyond the array part ends at a boundary, also in its fall-back |
| `LuaRefsClass.RefTable.Ref` | src/ThirdParty/Lua/src/lauxlib.c:522-541 | nil gives the fixed reference; anything else a new one under which the value is stored |
| `LuaRefsClass.RefTable.Unref` | src/ThirdParty/Lua/src/lauxlib.c:544-551 | the slot is at the head of the free list; a negative reference is ignored |
| `DebugReports.PutTiles` | src/BBoxUtils/bbox/debug/DebugStream.cpp:29-52 | after any write the spans tile the data: no gap, no overlap, none empty, neighbours of different outputs |
| `DebugReports.PutText` | src/BBoxUtils/bbox/debug/DebugStream.cpp:29-52 | one write adds its text to its own output, and every other output reads as before |
| `DebugReports.PutHolds` | src/BBoxUtils/bbox/debug/DebugStream.cpp:29-52 | the report holds exactly the writes so far: all the data in order, and per output what that stream wrote |
| `DebugProviderModel.EveryRun` | src/BBoxUtils/bbox/debug/DebugProvider.cpp:114-255 | over every nesting of streams and interleaving of writes: every report, in storage or delivered, holds exactly what its streams wrote, and a report is delivered at most once to each receiver, when it is complete |
| `DebugProviderModel.StepKeeps` | src/BBoxUtils/bbox/debug/DebugProvider.cpp:114-255 | every single step keeps that and the stack of asynchronous streams |
| `DebugProviderModel.ClosesInOrder` | src/BBoxUtils/bbox/debug/DebugProvider.cpp:225-230 | the assertion of DestroyStream holds exactly when the streams opened inside were destroyed first |
| `DebugProviderModel.NoOrphan` | src/BBoxUtils/bbox/debug/DebugProvider.cpp:243-255 | when the first stream of a report has no stream inside it, the report has no other stream |
| `DebugProviderModel.CloseDelivers` | src/BBoxUtils/bbox/debug/DebugProvider.cpp:216-255 | a report leaves exactly when its first stream is destroyed, then to its user or to every target, and no stream of it is left |
| `DebugProviderClass.DebugProvider.AllocateStream` | src/BBoxUtils/bbox/debug/DebugProvider.cpp:114-169 | an asynchronous stream joins the report of the active one; a user stream has a report of its own |
| `DebugProviderClass.DebugProvider.AllocateSubStream` | src/BBoxUtils/bbox/debug/DebugProvider.cpp:171-214 | a stream for another MIME type in the report of its parent |
| `DebugProviderClass.DebugProvider.Write` | src/BBoxUtils/bbox/debug/DebugStream.cpp:29-52 | xsputn: the data and the last span grow, or a span is begun; an empty write does nothing |
| `DebugProviderClass.DebugProvider.Overflow` | src/BBoxUtils/bbox/debug/DebugStream.cpp:54-66 | one character is written; the end of file is passed on |
| `DebugProviderClass.DebugProvider.DestroyStream` | src/BBoxUtils/bbox/debug/DebugProvider.cpp:216-255 | the parent is active again, and a first stream hands its report out |
| `ProjectGraph.DefinedReaches` | src/SolutionGenerator/bbox/make/Solution.cpp:219-248 | in a solution that was accepted no walk along references leaves it |
| `ProjectGraph.ClosureMonotone` | src/SolutionGenerator/bbox/make/Project.cpp:33-63 | what a dependency depends on, the project depends on; projects on a cycle have the same set |
| `ProjectGraph.ClosureFound` | src/SolutionGenerator/bbox/make/Project.cpp:33-63 | when the worklist is empty its result is exactly what is reachable by one or more references |
| `ProjectGraph.ProgressOn` | src/SolutionGenerator/bbox/make/Project.cpp:41-60 | one round keeps the invariant of the worklist and comes nearer to its end |
| `ProjectReferencesClass.Project.AddReference` | src/SolutionGenerator/bbox/make/Project.cpp:96-106 | added unless it is there already, of either kind; the error says which |
| `ProjectReferencesClass.Project.AddToolReference` | src/SolutionGenerator/bbox/make/Project.cpp:108-118 | the same for tool references |
| `ProjectReferencesClass.Solution.GetReferencesRecursive` | src/SolutionGenerator/bbox/make/Project.cpp:33-63 | ends on every graph; the result is exactly the set of names reachable by one or more references, all defined; it fails only on an undefined reachable name, never in an accepted solution |
| `ProjectReferencesClass.Solution.GetSelfPlusReferencesRecursive` | src/SolutionGenerator/bbox/make/Project.cpp:67-75 | the same with the project itself |
| `ProjectReferencesClass.Solution.CheckReferences` | src/SolutionGenerator/bbox/make/Solution.cpp:219-248 | accepts exactly the solutions in which every reference is defined; otherwise names a missing one and its project |
| `Base64.RoundTrip` | src/BBoxUtils/bbox/Base64.cpp:32-136 | for every byte string, decoding its encoding succeeds and gives the bytes back |
| `Base64.EncodedLength` | src/BBoxUtils/bbox/Base64.cpp:32-76 | the length is four for every three bytes or part of three |
| `Base64.DecodeOf` | src/BBoxUtils/bbox/Base64.cpp:78-136 | for every text: it is refused exactly when a character outside the alphabet follows the letters and equals signs; otherwise the data is that of the leading letters, so letters after the padding are dropped |
| `Base64.SplitIsGroup` | src/BBoxUtils/bbox/Base64.cpp:46-51 | the masks and shifts cut out the 6-bit groups of section 4 of RFC 4648 |
| `Base64.TailBytes` | src/BBoxUtils/bbox/Base64.cpp:119-132 | in the last group the missing characters decode to junk that the bytes kept do not depend on |
| `Base64.Encode` | src/BBoxUtils/bbox/Base64.cpp:32-76 | the text is the one of section 4 of RFC 4648 |
| `Base64.Decode` | src/BBoxUtils/bbox/Base64.cpp:78-136 | the loops compute the decoding of the text |
| `BinaryCodec.RoundTrip` | src/BBoxEnc/bbox/enc/FromBinary.cpp:59-147 | for every list of typed items, nested messages included: reading the encoding gives the items, with no error and no bytes left |
| `BinaryCodec.ItemsRound` | src/BBoxEnc/bbox/enc/FromBinary.cpp:59-147 | the same from any position of any data, which is left where the encoding stops |
| `BinaryCodec.CutIsRefused` | src/BBoxEnc/bbox/enc/FromBinary.h:188-198 | reading an encoding that was cut anywhere always ends in an error |
| `BinaryCodec.ExtraIsRefused` | src/BBoxEnc/bbox/enc/FromBinary.cpp:32-39 | bytes after the encoding are an error |
| `BinaryCodec.ErrorStays` | src/BBoxEnc/bbox/enc/FromBinary.cpp:41-57 | the first error is the one reported |
| `BinaryCodec.NumberBack` | src/BBoxEnc/bbox/enc/FromBinary.h:89-157 | every fixed width number comes back from its little-endian bytes |
| `BinaryCodec.SignedBack` | src/BBoxEnc/bbox/enc/FromBinary.h:171-174 | signed numbers come back through the unsigned casts |
| `ToBinaryModel.WriteThenRead` | src/BBoxEnc/bbox/enc/ToBinary.cpp:144-189 | from any empty writer, when all writes fit and none raises an error, reading the extracted bytes gives the items back |
| `ToBinaryModel.GrowingReadsBack` | src/BBoxEnc/bbox/enc/ToBinary.cpp:144-189 | a growing buffer that no single write exceeds takes every list of items and gives it back |
| `ToBinaryModel.PutAllKeeps` | src/BBoxEnc/bbox/enc/ToBinary.cpp:144-189 | growth keeps what was written; without an error everything was written, with one the buffer holds a prefix |
| `ToBinaryModel.FitsExactly` | src/BBoxEnc/bbox/enc/ToBinary.cpp:162-186 | one doubling makes room exactly when the write ends within twice the buffer |
| `ToBinaryModel.FirstStringFits` | src/BBoxEnc/bbox/enc/ToBinary.cpp:100-112 | the first string in a new buffer of length n fits exactly up to 2n - 8 bytes |
| `ToBinaryModel.AutoTakesAll` | src/BBoxEnc/bbox/enc/ToBinary.cpp:144-189 | a buffer of its own takes any list of writes none of which is longer than it |
| `ToBinaryModel.FixedTakesExactly` | src/BBoxEnc/bbox/enc/ToBinary.cpp:161-166 | a provided buffer takes a list of writes without an error exactly when all of it fits |
| `ToBinaryClass.ToBinary.PrivateTestForWrite` | src/BBoxEnc/bbox/enc/ToBinary.cpp:144-189 | room, or the first error; the bytes written so far are kept |
| `ToBinaryClass.ToBinary.WriteData` | src/BBoxEnc/bbox/enc/ToBinary.cpp:91-98 | the bytes are appended |
| `ToBinaryClass.ToBinary.WriteUint8` | src/BBoxEnc/bbox/enc/ToBinary.h:89-96 | one byte |
| `ToBinaryClass.ToBinary.WriteUint16` | src/BBoxEnc/bbox/enc/ToBinary.h:101-109 | two bytes, lowest first |
| `ToBinaryClass.ToBinary.WriteUint16BE` | src/BBoxEnc/bbox/enc/ToBinary.h:114-122 | two bytes, highest first |
| `ToBinaryClass.ToBinary.WriteUint32` | src/BBoxEnc/bbox/enc/ToBinary.h:124-144 | four bytes, lowest first |
| `ToBinaryClass.ToBinary.WriteUint64` | src/BBoxEnc/bbox/enc/ToBinary.h:146-170 | eight bytes, lowest first |
| `ToBinaryClass.ToBinary.WriteBlock` | src/BBoxEnc/bbox/enc/ToBinary.cpp:100-126 | the length, and the bytes if there are any |
| `ToBinaryClass.ToBinary.Write` | src/BBoxEnc/bbox/enc/ToBinary.h:184-196 | every kind of item |
| `ToBinaryClass.ToBinary.WriteMembers` | src/BBoxEnc/bbox/enc/ToBinary.cpp:136-140 | the members of a message in order |
| `ToBinaryClass.ToBinary.ExtractData` | src/BBoxEnc/bbox/enc/ToBinary.cpp:55-71 | what was written, or nothing after an error |
| `FromBinaryClass.FromBinary.PrivateCanRead` | src/BBoxEnc/bbox/enc/FromBinary.h:188-198 | whether the bytes are there, or the first error |
| `FromBinaryClass.FromBinary.ReadUint8` | src/BBoxEnc/bbox/enc/FromBinary.h:89-100 | one byte |
| `FromBinaryClass.FromBinary.ReadUint16` | src/BBoxEnc/bbox/enc/FromBinary.h:102-114 | two bytes, lowest first |
| `FromBinaryClass.FromBinary.ReadUint32` | src/BBoxEnc/bbox/enc/FromBinary.h:116-137 | four bytes, lowest first |
| `FromBinaryClass.FromBinary.ReadUint64` | src/BBoxEnc/bbox/enc/FromBinary.h:139-157 | eight bytes, lowest first |
| `FromBinaryClass.FromBinary.ReadBytes` | src/BBoxEnc/bbox/enc/FromBinary.cpp:68-112 | the length and as many bytes, or the first error |
| `FromBinaryClass.FromBinary.Read` | src/BBoxEnc/bbox/enc/FromBinary.h:161-174 | every kind of item |
| `FromBinaryClass.FromBinary.ReadMsgAnyPtr` | src/BBoxEnc/bbox/enc/FromBinary.cpp:128-147 | null, a message of a known type, or an error |
| `FromBinaryClass.FromBinary.EnsureAllRead` | src/BBoxEnc/bbox/enc/FromBinary.cpp:32-39 | bytes left over are an error |
| `XmlTree.WrittenDecodes` | src/BBoxEnc/bbox/enc/ToXml.cpp:52-83 | decoding the tree of a value by recursion gives the value, its strings cut at their first NUL |
| `XmlTree.CutExactly` | src/BBoxEnc/bbox/enc/ToXml.cpp:73-82 | nothing is cut exactly when no string of the value holds a NUL |
| `FromXmlModel.CursorRefinesTree` | src/BBoxEnc/bbox/enc/FromXml.cpp:111-283 | on any element of any document the cursor reads a value without an error exactly when decoding the element by recursion gives one; it reads that value and is back where it was |
| `FromXmlModel.DocumentRead` | src/BBoxEnc/bbox/enc/FromXml.cpp:111-299 | for every document the whole sequence of calls succeeds, EnsureAllDecoded included, exactly when its first element has the name and decodes |
| `FromXmlModel.RoundTrip` | src/BBoxEnc/bbox/enc/FromXml.cpp:111-299 | reading what was written raises no error and decodes everything; the value is the one written exactly when no string holds a NUL |
| `FromXmlModel.AnnouncedStarts` | src/BBoxEnc/bbox/enc/FromXml.cpp:80-154 | HasNextNamedItem is true exactly when StartNamedItem succeeds |
| `FromXmlModel.ErrorStays` | src/BBoxEnc/bbox/enc/FromXml.cpp:111-283 | after an error nothing moves |
| `ToXmlClass.ToXml.StartNamedItem` | src/BBoxEnc/bbox/enc/ToXml.cpp:29-34 | a new empty element inside the current one |
| `ToXmlClass.ToXml.CompleteNamedItem` | src/BBoxEnc/bbox/enc/ToXml.cpp:36-39 | the parent is current again; the document is the same |
| `ToXmlClass.ToXml.SetStringValue` | src/BBoxEnc/bbox/enc/ToXml.cpp:52-83 | an attribute for a short printable string, otherwise text up to the first NUL |
| `ToXmlClass.ToXml.SetValue` | src/BBoxEnc/bbox/enc/ToXml.cpp:29-83 | the calls that write a value add its tree to the current element |
| `ToXmlClass.ConvertToDocument` | src/BBoxEnc/bbox/enc/ToXml.cpp:16-23 | the document of a value |
| `FromXmlClass.FromXml.HasNextNamedItem` | src/BBoxEnc/bbox/enc/FromXml.cpp:80-109 | whether the next element has the name, and whether starting it would succeed |
| `FromXmlClass.FromXml.StartNamedItem` | src/BBoxEnc/bbox/enc/FromXml.cpp:111-154 | the next element is current, in value mode, or the first error |
| `FromXmlClass.FromXml.CompleteNamedItem` | src/BBoxEnc/bbox/enc/FromXml.cpp:156-173 | structure mode again |
| `FromXmlClass.FromXml.StartStructure` | src/BBoxEnc/bbox/enc/FromXml.cpp:175-188 | structure mode before the first element |
| `FromXmlClass.FromXml.CompleteStructure` | src/BBoxEnc/bbox/enc/FromXml.cpp:190-237 | value mode at the element whose structure it was, or an error if elements are left |
| `FromXmlClass.FromXml.DecodeStringValue` | src/BBoxEnc/bbox/enc/FromXml.cpp:239-283 | the attribute or the one text, or an error |
| `FromXmlClass.FromXml.EnsureAllDecoded` | src/BBoxEnc/bbox/enc/FromXml.cpp:285-299 | an error unless the root item was completed |
| `FromXmlClass.WriteAndRead` | src/BBoxEnc/bbox/enc/FromXml.cpp:111-299 | the round trip call by call on the two objects |
| `AppNumbers.IntTextBack` | src/TypeScript_UnitTests/app.js:1230-1259 | parseInt gives a whole number back from its text exactly when it is below 10^21 in size; from there on the text has an exponent and at most one digit is read |
| `AppXmlTypes.NumberKept` | src/TypeScript_UnitTests/app.js:1230-1259 | a number comes back as it was exactly when it is whole and below 10^21 in size |
| `AppXmlTypes.WholeIsRead` | src/TypeScript_UnitTests/app.js:1243-1259 | if all numbers of a value are such numbers, decoding raises no error |
| `AppXmlTypes.TooLongForParseInt` | src/TypeScript_UnitTests/app.js:1230-1259 | a number of 10^21 or more, 10^21 itself for one, comes back as a single digit without an error, if that is in range |
| `AppXmlTypes.TreeDecodes` | src/TypeScript_UnitTests/app.js:1366-1489 | decoding the tree of a value by recursion gives the value as far as its type names it, each number as parseInt reads its text |
| `AppXmlTypes.KeptExactly` | src/TypeScript_UnitTests/app.js:1388-1404 | a value comes back as it was exactly when its numbers are whole and below 10^21 in size and, at every level, its objects have the members of their type and besides only what the default constructor makes |
| `AppToXmlModel.EncodesTree` | src/TypeScript_UnitTests/app.js:804-902 | toXml raises no error exactly on the values of its type (kind, range, all members present, size), and then writes the tree of the value, with the text that Number.prototype.toString gives, and nothing else |
| `AppToXmlModel.Int32TakesMore` | src/TypeScript_UnitTests/app.js:1511 | outside the 32 bits the int32_t of the library accepts exactly the numbers from -21474836478 to -2147483649 |
| `AppToXmlModel.EncodesMembers` | src/TypeScript_UnitTests/app.js:1366-1387 | the members in order, each with its name |
| `AppToXmlModel.EncodesEntries` | src/TypeScript_UnitTests/app.js:1456-1472 | the entries in order |
| `AppToXmlClass.ToXml.SetValue` | src/TypeScript_UnitTests/app.js:804-828 | the value attribute, in the two states that allow it |
| `AppToXmlClass.ToXml.StartObject` | src/TypeScript_UnitTests/app.js:842-855 | an object is started |
| `AppToXmlClass.ToXml.EndObject` | src/TypeScript_UnitTests/app.js:856-869 | an object is ended |
| `AppToXmlClass.ToXml.StartNamedValue` | src/TypeScript_UnitTests/app.js:870-885 | a new element is pushed |
| `AppToXmlClass.ToXml.EndNamedValue` | src/TypeScript_UnitTests/app.js:886-902 | the parent is popped; its state depends on the depth |
| `AppToXmlClass.ToXml.EncodeNumber` | src/TypeScript_UnitTests/app.js:1232-1242 | the text of a number in range, or an error |
| `AppToXmlClass.ToXml.EncodeStruct` | src/TypeScript_UnitTests/app.js:1366-1387 | toXml of a structure |
| `AppToXmlClass.ToXml.EncodeDeque` | src/TypeScript_UnitTests/app.js:1456-1472 | toXml of a deque |
| `AppToXmlClass.ToXml.Encode` | src/TypeScript_UnitTests/app.js:1168-1472 | toXml of every type |
| `AppFromXmlModel.RoundTrip` | src/TypeScript_UnitTests/app.js:804-1489 | for every type and every value that it accepts: encoding raises no error; decoding the document raises one exactly when some number is read out of its range, never if all are whole and below 10^21 in size; otherwise it ends in state Complete with an empty parent stack; what it returns is the value itself exactly on the condition of KeptExactly |
| `AppFromXmlModel.DecodeRefines` | src/TypeScript_UnitTests/app.js:1001-1139 | on any element of any document, whatever its digits, fromXml raises no error exactly when decoding the element by recursion gives a value, and returns that value |
| `AppFromXmlModel.MembersRefine` | src/TypeScript_UnitTests/app.js:1388-1404 | the members of a structure agree with the child elements |
| `AppFromXmlModel.EntriesRefine` | src/TypeScript_UnitTests/app.js:1473-1489 | the entries of a deque agree with the child elements and the size |
| `AppFromXmlClass.FromXml.NextElement` | src/TypeScript_UnitTests/app.js:919-938 | the next child element, or null for ever |
| `AppFromXmlClass.FromXml.GetValue` | src/TypeScript_UnitTests/app.js:1001-1056 | the attribute or the text, or an error |
| `AppFromXmlClass.FromXml.StartObject` | src/TypeScript_UnitTests/app.js:1057-1076 | the object outside is pushed |
| `AppFromXmlClass.FromXml.EndObject` | src/TypeScript_UnitTests/app.js:1077-1103 | complete, or the object outside is popped, or an error if elements are left |
| `AppFromXmlClass.FromXml.StartNamedValue` | src/TypeScript_UnitTests/app.js:1104-1127 | the next element if it has the name, or an error |
| `AppFromXmlClass.FromXml.EndNamedValue` | src/TypeScript_UnitTests/app.js:1128-1139 | in the object again |
| `AppFromXmlClass.FromXml.Decode` | src/TypeScript_UnitTests/app.js:1175-1404 | fromXml of every type |
| `AppFromXmlClass.FromXml.DecodeStruct` | src/TypeScript_UnitTests/app.js:1388-1404 | fromXml of a structure |
| `AppFromXmlClass.FromXml.DecodeDeque` | src/TypeScript_UnitTests/app.js:1473-1489 | fromXml of a deque |
| `AppFromXmlClass.EncodeAndDecode` | src/TypeScript_UnitTests/app.js:804-1489 | the round trip call by call on the two objects |

## Left out

- Lua code generator: calls, upvalues, globals, tables, concatenation, varargs, loops, goto, `elseif` and line information; the limit on the number of locals; constants beyond the range of `OP_LOADKX`; jump offsets that only raise "control structure too long".
- LuaProgram.FunctionRun: requires that the frame fits (`MAXSTACK`), where the source raises "function or expression too complex".
- LuaCodegen.FuncState.ReserveRegs: goes on where luaK_checkstack raises that error; its last clause says when that is.
- LuaCodegen.FuncState.FreeReg: that the freed register is the topmost one, an assertion of the source, is not part of this contract; LuaOps.FreeBothTop shows it for every pair of operands.
- LuaCodegen.FuncState.GoIfTrue: the kind that the source leaves in the descriptor after the gate is not compared, because nothing reads it before the right operand replaces it.
- LuaCodegen.FuncState.GoIfFalse: the kind is not compared either, for the same reason.
- LuaCodegen.FuncState.Infix: after `and` and `or` the kind is not compared either, for the same reason.
- Lua numbers: one pair of functions stands for the number operations of folding and of execution; the two zeros, the infinities and NaN are told apart, other numbers are exact.
- Timer, one-shot work, thread pool: counters and sequence numbers do not wrap at 2^64; delays, clocks and the text of `PrintState`.
- TimerModel.EveryRun: nobody calls a timer that has reported stopped, and its owner stops it only when it does not run, as its assertion demands.
- ThreadPool: the thread itself, the mutex and the condition variable; the steps of the model are the critical sections. Exceptions of a completion handler.
- FadecandyModel.EveryRun: `UpdateLeds` after the client has stopped is not a step, and a closed socket shows as a failing operation.
- LuaRefsModel.EveryRun: only live or negative references are released, as the manual demands; slot numbers fit an `int`.
- Debug provider: `LoginRoot`, `LogoutRoot`, queries and debug enables. The set of targets changes in one step. Pointers to streams and reports are numbers, so freed memory is an absent number.
- DebugProviderModel.EveryRun: a stream is used while it is open and destroyed after the streams inside it, which is how its RAII owner uses it.
- ToBinaryClass.ToBinary.WriteData: requires that one doubling is enough, because the source writes past the buffer otherwise.
- Binary codec: `ReadData`, and the strategies that write vectors, sets, maps and pairs as items. In a 64-bit build `size_t` has every value of `uint64_t`.
- C++ XML: the text of the document and its parsing, `EstimateNumNamedItemsInStructure`, error texts beyond their beginning. ToXml.CompleteNamedItem puts the element into its parent when it is completed, and `Folded` shows that the document is the same as if it had been there from the start.
- FromXmlClass.FromXml.DecodeStringValue: requires an attribute or a child node, because the source takes the text of a null pointer otherwise; `HasValue` is the condition.
- Browser XML: the text of the document, the check of the root element's name (its guard looks at a function and is never true), `encodeTypedValue` and `decodeTypedValue`, the type library apart from the bounds of `int32_t`. There is one zero and no largest number, and a fraction has any text; that `parseInt` may take zeros for the digits after the twentieth is one choice of its rounding.
- Project generator: everything but references; the order in which the sets are walked is left open, so the results hold for every order.
- Base64: `isalnum` is the one of the C locale.
- JSON, base16, UUIDs, HTTP, web sockets, LED patterns, audio and the emulator runner.
